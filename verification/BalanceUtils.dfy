/** Which balances are needed, each once, in batches: erc20/lib/balance_utils.ts and identifyAddresses. */
module BalanceUtils {
  import opened Common

  datatype Pair = Pair(address: string, contract: string)

  datatype Balance = Amount(value: nat) | MulticallFailure

  const ZERO_ADDRESS := "0x0000000000000000000000000000000000000000"

  predicate HexDigit(c: char) {
    '0' <= c <= '9' || 'a' <= c <= 'f' || 'A' <= c <= 'F'
  }

  function WithoutPrefix(a: string): string {
    if |a| >= 2 && a[0] == '0' && (a[1] == 'x' || a[1] == 'X') then a[2..] else a
  }

  /** The shape of an address; its checksum is left to the `checksum` parameter below. */
  predicate HexShape(a: string) {
    |WithoutPrefix(a)| == 40
    && forall i {:trigger HexDigit(WithoutPrefix(a)[i])} :: 0 <= i < 40 ==> HexDigit(WithoutPrefix(a)[i])
  }

  predicate Eligible(checksum: string -> bool, address: string, contract: string) {
    HexShape(address) && checksum(address) && address != ZERO_ADDRESS && address != contract
  }

  function ConcatAddressAndContract(address: string, contract: string): string {
    address + "-" + contract
  }

  lemma HexHasNoDash(a: string)
    requires HexShape(a)
    ensures '-' !in a
  {
    forall i | 0 <= i < |a| ensures a[i] != '-' {
      if |a| == 40 {
        assert HexDigit(WithoutPrefix(a)[i]);
      } else if i >= 2 {
        assert HexDigit(WithoutPrefix(a)[i - 2]);
      }
    }
  }

  /** Two addresses never share a key, whatever their contracts. */
  lemma KeysDiffer(p: Pair, q: Pair)
    requires HexShape(p.address) && HexShape(q.address)
    requires ConcatAddressAndContract(p.address, p.contract) == ConcatAddressAndContract(q.address, q.contract)
    ensures p == q
  {
    HexHasNoDash(p.address);
    HexHasNoDash(q.address);
    SplitAtDash(p.address, p.contract, q.address, q.contract);
  }

  lemma SplitAtDash(a: string, c: string, b: string, d: string)
    requires '-' !in a && '-' !in b && a + "-" + c == b + "-" + d
    ensures a == b && c == d
  {
    var k := a + "-" + c;
    assert k[|a|] == '-' && k[|b|] == '-';
    assert forall i :: 0 <= i < |a| ==> k[i] == a[i];
    assert forall i :: 0 <= i < |b| ==> k[i] == b[i];
    assert |a| == |b|;
    assert a == k[..|a|] && b == k[..|b|] && c == k[|a| + 1..] && d == k[|b| + 1..];
  }

  /** What a transfer says about balances: its parties, its contract and its block. */
  datatype Movement = Movement(sender: string, receiver: string, contract: string, blockNumber: int)

  /** The balances of the two parties, where they are known. */
  datatype Sides = Sides(sender: Option<Balance>, receiver: Option<Balance>)

  /** An ERC20 transfer; enrichment writes its two balances. */
  class Transfer {
    const movement: Movement
    var fromBalance: Option<Balance>
    var toBalance: Option<Balance>

    constructor (movement: Movement)
      ensures this.movement == movement && fromBalance.None? && toBalance.None?
    {
      this.movement, this.fromBalance, this.toBalance := movement, None, None;
    }

    function Balances(): Sides
      reads this
    {
      Sides(fromBalance, toBalance)
    }
  }

  function Movements(events: seq<Transfer>): (r: seq<Movement>)
    ensures |r| == |events| && forall i :: 0 <= i < |r| ==> r[i] == events[i].movement
  {
    seq(|events|, i requires 0 <= i < |events| => events[i].movement)
  }

  function AddPair(elements: seq<Pair>, item: Pair): seq<Pair> {
    if item in elements then elements else elements + [item]
  }

  /** A set that compares its elements by value. */
  class AddressContractStore {
    var elements: seq<Pair>

    constructor ()
      ensures elements == []
    {
      elements := [];
    }

    method Has(item: Pair) returns (found: bool)
      ensures found <==> item in elements
    {
      for i := 0 to |elements|
        invariant item !in elements[..i]
      {
        if elements[i].address == item.address && elements[i].contract == item.contract {
          return true;
        }
      }
      return false;
    }

    method Add(item: Pair)
      modifies this
      ensures elements == AddPair(old(elements), item)
    {
      var found := Has(item);
      if !found {
        elements := elements + [item];
      }
    }
  }

  /** The pairs one event needs. */
  function EventPairs(checksum: string -> bool, e: Movement): seq<Pair> {
    (if Eligible(checksum, e.sender, e.contract) then [Pair(e.sender, e.contract)] else [])
    + (if Eligible(checksum, e.receiver, e.contract) then [Pair(e.receiver, e.contract)] else [])
  }

  function AddAll(elements: seq<Pair>, items: seq<Pair>): seq<Pair>
    decreases |items|
  {
    if items == [] then elements else AddAll(AddPair(elements, items[0]), items[1..])
  }

  method AddToSet(store: AddressContractStore, checksum: string -> bool, event: Movement)
    modifies store
    ensures store.elements == AddAll(old(store.elements), EventPairs(checksum, event))
  {
    ghost var before, items := store.elements, EventPairs(checksum, event);
    if Eligible(checksum, event.sender, event.contract) {
      store.Add(Pair(event.sender, event.contract));
    }
    if Eligible(checksum, event.receiver, event.contract) {
      store.Add(Pair(event.receiver, event.contract));
    }
    AddAllTwo(before, items);
  }

  lemma AddAllTwo(elements: seq<Pair>, items: seq<Pair>)
    requires |items| <= 2
    ensures AddAll(elements, items) ==
            if |items| == 0 then elements
            else if |items| == 1 then AddPair(elements, items[0])
            else AddPair(AddPair(elements, items[0]), items[1])
  {
    if |items| == 1 {
      assert items[1..] == [];
    } else if |items| == 2 {
      assert items[1..] == [items[1]] && [items[1]][1..] == [];
      assert AddAll(AddPair(elements, items[0]), items[1..])
          == AddAll(AddPair(AddPair(elements, items[0]), items[1]), []);
    }
  }

  /** The pairs needed at a block by the first n events, each once. */
  function PairsAt(checksum: string -> bool, events: seq<Movement>, n: nat, block: int): seq<Pair>
    requires n <= |events|
  {
    if n == 0 then []
    else
      var before := PairsAt(checksum, events, n - 1, block);
      if events[n - 1].blockNumber == block then AddAll(before, EventPairs(checksum, events[n - 1])) else before
  }

  /** The blocks of the first n events, in order of first appearance. */
  function BlocksOf(events: seq<Movement>, n: nat): seq<int>
    requires n <= |events|
  {
    if n == 0 then []
    else
      var before := BlocksOf(events, n - 1);
      if events[n - 1].blockNumber in before then before else before + [events[n - 1].blockNumber]
  }

  lemma {:induction false} AddAllFacts(elements: seq<Pair>, items: seq<Pair>)
    ensures forall p :: p in AddAll(elements, items) <==> p in elements || p in items
    ensures NoDuplicates(elements) ==> NoDuplicates(AddAll(elements, items))
    decreases |items|
  {
    if items != [] {
      var more := AddPair(elements, items[0]);
      assert forall p :: p in more <==> p in elements || p == items[0];
      AddAllFacts(more, items[1..]);
    }
  }

  lemma {:induction false} PairAtIff(checksum: string -> bool, events: seq<Movement>, n: nat, block: int, p: Pair)
    requires n <= |events|
    ensures p in PairsAt(checksum, events, n, block) <==>
            exists i :: 0 <= i < n && events[i].blockNumber == block && p in EventPairs(checksum, events[i])
  {
    if n > 0 {
      PairAtIff(checksum, events, n - 1, block, p);
      AddedAt(checksum, events, n, block, p);
    }
  }

  lemma AddedAt(checksum: string -> bool, events: seq<Movement>, n: nat, block: int, p: Pair)
    requires 0 < n <= |events|
    ensures p in PairsAt(checksum, events, n, block) <==>
            || p in PairsAt(checksum, events, n - 1, block)
            || (events[n - 1].blockNumber == block && p in EventPairs(checksum, events[n - 1]))
  {
    AddAllFacts(PairsAt(checksum, events, n - 1, block), EventPairs(checksum, events[n - 1]));
  }

  lemma {:induction false} PairsAtOnce(checksum: string -> bool, events: seq<Movement>, n: nat, block: int)
    requires n <= |events|
    ensures NoDuplicates(PairsAt(checksum, events, n, block))
  {
    if n > 0 {
      PairsAtOnce(checksum, events, n - 1, block);
      AddAllFacts(PairsAt(checksum, events, n - 1, block), EventPairs(checksum, events[n - 1]));
    }
  }

  /** A pair is listed at a block, once, exactly when an event of that block needs it. */
  lemma PairsAtFacts(checksum: string -> bool, events: seq<Movement>, n: nat, block: int)
    requires n <= |events|
    ensures NoDuplicates(PairsAt(checksum, events, n, block))
    ensures forall p :: p in PairsAt(checksum, events, n, block) <==>
              exists i :: 0 <= i < n && events[i].blockNumber == block && p in EventPairs(checksum, events[i])
  {
    PairsAtOnce(checksum, events, n, block);
    forall p ensures p in PairsAt(checksum, events, n, block) <==>
                     exists i :: 0 <= i < n && events[i].blockNumber == block && p in EventPairs(checksum, events[i])
    {
      PairAtIff(checksum, events, n, block, p);
    }
  }

  lemma {:induction false} BlocksOfFacts(events: seq<Movement>, n: nat)
    requires n <= |events|
    ensures NoDuplicates(BlocksOf(events, n))
    ensures forall b :: b in BlocksOf(events, n) <==> exists i :: 0 <= i < n && events[i].blockNumber == b
  {
    if n > 0 {
      BlocksOfFacts(events, n - 1);
    }
  }

  /** All addresses involved in transfers, per block; blocks in order of first appearance. */
  method IdentifyAddresses(checksum: string -> bool, events: seq<Movement>)
    returns (order: seq<int>, acc: map<int, AddressContractStore>)
    ensures order == BlocksOf(events, |events|)
    ensures acc.Keys == set b | b in order
    ensures forall b :: b in acc ==> acc[b].elements == PairsAt(checksum, events, |events|, b)
  {
    order, acc := [], map[];
    for i := 0 to |events|
      invariant order == BlocksOf(events, i)
      invariant acc.Keys == set b | b in order
      invariant forall b :: b in acc ==> fresh(acc[b]) && acc[b].elements == PairsAt(checksum, events, i, b)
      invariant forall b, d :: b in acc && d in acc && b != d ==> acc[b] != acc[d]
    {
      var block := events[i].blockNumber;
      PairsAtStep(checksum, events, i);
      if block in acc {
        AddToSet(acc[block], checksum, events[i]);
      } else {
        NothingYet(checksum, events, i, block);
        var newSet := new AddressContractStore();
        AddToSet(newSet, checksum, events[i]);
        order, acc := order + [block], acc[block := newSet];
      }
    }
  }

  lemma PairsAtStep(checksum: string -> bool, events: seq<Movement>, i: nat)
    requires i < |events|
    ensures forall b :: b != events[i].blockNumber ==>
              PairsAt(checksum, events, i + 1, b) == PairsAt(checksum, events, i, b)
    ensures var b := events[i].blockNumber;
            PairsAt(checksum, events, i + 1, b)
            == AddAll(PairsAt(checksum, events, i, b), EventPairs(checksum, events[i]))
  {
  }

  lemma NothingYet(checksum: string -> bool, events: seq<Movement>, n: nat, block: int)
    requires n <= |events| && block !in BlocksOf(events, n)
    ensures PairsAt(checksum, events, n, block) == []
  {
    if n > 0 {
      NothingYet(checksum, events, n - 1, block);
    }
  }

  method BreakNeededBalancesPerBatch(input: seq<Pair>, batchSize: int) returns (result: seq<seq<Pair>>)
    requires batchSize >= 1
    ensures result == Slices(input, batchSize)
  {
    result := [];
    var i := 0;
    ghost var rest := input;
    while i < |input|
      invariant 0 <= i && rest == input[Min(i, |input|)..]
      invariant result + Slices(rest, batchSize) == Slices(input, batchSize)
      decreases |input| - i
    {
      var end := Min(i + batchSize, |input|);
      SliceRest(input, i, end);
      SlicesStep(rest, batchSize, end - i, result);
      result := result + [input[i..end]];
      rest := input[end..];
      i := i + batchSize;
    }
  }

  /** One request to the node: some pairs, at one block. */
  datatype Batch = Batch(block: int, pairs: seq<Pair>)

  function Labelled(block: int, groups: seq<seq<Pair>>): seq<Batch> {
    if groups == [] then [] else [Batch(block, groups[0])] + Labelled(block, groups[1..])
  }

  /** The requests of the first k blocks, block by block. */
  function BatchesOf(checksum: string -> bool, events: seq<Movement>, blocks: seq<int>, size: int): seq<Batch>
    requires size >= 1
  {
    if blocks == [] then []
    else
      var init, last := blocks[..|blocks| - 1], blocks[|blocks| - 1];
      BatchesOf(checksum, events, init, size)
        + Labelled(last, Slices(PairsAt(checksum, events, |events|, last), size))
  }

  lemma BatchesStep(checksum: string -> bool, events: seq<Movement>, blocks: seq<int>, k: nat, size: int)
    requires size >= 1 && k < |blocks|
    ensures BatchesOf(checksum, events, blocks[..k + 1], size)
         == BatchesOf(checksum, events, blocks[..k], size)
            + Labelled(blocks[k], Slices(PairsAt(checksum, events, |events|, blocks[k]), size))
  {
    assert blocks[..k + 1][..k] == blocks[..k] && blocks[..k + 1][k] == blocks[k];
  }

  method BatchAddresses(checksum: string -> bool, events: seq<Movement>, batchSize: int) returns (batches: seq<Batch>)
    requires batchSize >= 1
    ensures batches == BatchesOf(checksum, events, BlocksOf(events, |events|), batchSize)
  {
    var order, acc := IdentifyAddresses(checksum, events);
    batches := [];
    for k := 0 to |order|
      invariant batches == BatchesOf(checksum, events, order[..k], batchSize)
      invariant forall b :: b in acc ==> acc[b].elements == PairsAt(checksum, events, |events|, b)
    {
      assert order[k] in order;
      var broken := BreakNeededBalancesPerBatch(acc[order[k]].elements, batchSize);
      BatchesStep(checksum, events, order, k, batchSize);
      batches := batches + Labelled(order[k], broken);
    }
    assert order[..|order|] == order;
  }

  // ----- Every needed pair is requested exactly once -----

  /** How often a pair is requested at a block. */
  function Requested(batches: seq<Batch>, block: int, p: Pair): nat {
    if batches == [] then 0
    else (if batches[0].block == block then multiset(batches[0].pairs)[p] else 0)
         + Requested(batches[1..], block, p)
  }

  lemma {:induction false} RequestedAppend(a: seq<Batch>, b: seq<Batch>, block: int, p: Pair)
    ensures Requested(a + b, block, p) == Requested(a, block, p) + Requested(b, block, p)
  {
    if a == [] {
      assert a + b == b;
    } else {
      assert (a + b)[1..] == a[1..] + b;
      RequestedAppend(a[1..], b, block, p);
    }
  }

  lemma {:induction false} RequestedLabelled(input: seq<Pair>, size: int, at: int, block: int, p: Pair)
    requires size >= 1
    ensures Requested(Labelled(at, Slices(input, size)), block, p) ==
            if at == block then multiset(input)[p] else 0
    decreases |input|
  {
    if |input| > size {
      RequestedLabelled(input[size..], size, at, block, p);
      var l := Labelled(at, Slices(input, size));
      assert Slices(input, size)[1..] == Slices(input[size..], size);
      assert input == input[..size] + input[size..];
    } else if |input| > 0 {
      assert Slices(input, size)[1..] == [];
    }
  }

  lemma RequestedOfBlock(checksum: string -> bool, events: seq<Movement>, at: int, size: int, block: int, p: Pair)
    requires size >= 1
    ensures Requested(Labelled(at, Slices(PairsAt(checksum, events, |events|, at), size)), block, p) ==
            if at == block && p in PairsAt(checksum, events, |events|, block) then 1 else 0
  {
    RequestedLabelled(PairsAt(checksum, events, |events|, at), size, at, block, p);
    PairsAtOnce(checksum, events, |events|, at);
    CountOnce(PairsAt(checksum, events, |events|, at), p);
  }

  lemma {:induction false} RequestedOfBlocks(checksum: string -> bool, events: seq<Movement>, blocks: seq<int>,
                                             size: int,
                                             block: int, p: Pair)
    requires size >= 1 && NoDuplicates(blocks)
    ensures Requested(BatchesOf(checksum, events, blocks, size), block, p) ==
            if block in blocks && p in PairsAt(checksum, events, |events|, block) then 1 else 0
  {
    if blocks != [] {
      var init, last := blocks[..|blocks| - 1], blocks[|blocks| - 1];
      assert blocks == init + [last] && last !in init;
      RequestedOfBlocks(checksum, events, init, size, block, p);
      RequestedAppend(BatchesOf(checksum, events, init, size),
                      Labelled(last, Slices(PairsAt(checksum, events, |events|, last), size)), block, p);
      RequestedOfBlock(checksum, events, last, size, block, p);
    }
  }

  /** An address is asked for once at each block where a transfer needs it, and not otherwise. */
  lemma RequestedOnce(checksum: string -> bool, events: seq<Movement>, size: int, block: int, p: Pair)
    requires size >= 1
    ensures Requested(BatchesOf(checksum, events, BlocksOf(events, |events|), size), block, p) ==
            if exists i :: 0 <= i < |events| && events[i].blockNumber == block && p in EventPairs(checksum, events[i])
            then 1 else 0
  {
    BlocksOfFacts(events, |events|);
    PairsAtFacts(checksum, events, |events|, block);
    RequestedOfBlocks(checksum, events, BlocksOf(events, |events|), size, block, p);
  }
}

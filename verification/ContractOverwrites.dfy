/** Exporting tokens under another contract address: erc20/lib/contract_overwrite.ts. */
module ContractOverwrites {
  import opened Common
  import opened FetchEvents
  import U = BalanceUtils

  /** A transfer on its way to the export; balances are set first where they are asked for, the key last. */
  datatype Event = Event(transfer: Transfer, primaryKey: Option<int>, sides: U.Sides)

  datatype OldContract = OldContract(address: string, multiplier: real)

  datatype ContractOverwrite = ContractOverwrite(newContract: string, oldAddresses: seq<string>,
                                                 multipliers: map<string, real>)

  /** How an amount is scaled. */
  type Rescale = (nat, real) -> nat

  function OldAddresses(olds: seq<OldContract>): seq<string> {
    MapSeq(olds, (o: OldContract) => Lower(o.address))
  }

  /** The last multiplier given for each address. */
  function Multipliers(olds: seq<OldContract>): map<string, real> {
    if olds == [] then map[]
    else Multipliers(olds[..|olds| - 1])[Lower(olds[|olds| - 1].address) := olds[|olds| - 1].multiplier]
  }

  function MakeOverwrite(newAddress: string, olds: seq<OldContract>): ContractOverwrite {
    ContractOverwrite(Lower(newAddress), OldAddresses(olds), Multipliers(olds))
  }

  predicate Complete(o: ContractOverwrite) {
    forall a :: a in o.oldAddresses ==> a in o.multipliers
  }

  lemma {:induction false} MultipliersCover(olds: seq<OldContract>)
    ensures forall a :: a in OldAddresses(olds) <==> a in Multipliers(olds)
  {
    if olds != [] {
      var init, last := olds[..|olds| - 1], olds[|olds| - 1];
      MultipliersCover(init);
      assert OldAddresses(olds) == OldAddresses(init) + [Lower(last.address)];
    } else {
      assert OldAddresses(olds) == [];
    }
  }

  /** An overwrite has a multiplier for every old address, so editing a matching event never throws. */
  lemma MadeOverwriteIsComplete(newAddress: string, olds: seq<OldContract>)
    ensures Complete(MakeOverwrite(newAddress, olds))
  {
    MultipliersCover(olds);
  }

  predicate Match(o: ContractOverwrite, e: Event) {
    e.transfer.contract in o.oldAddresses
  }

  function EditAddressAndAmount(e: Event, o: ContractOverwrite, rescale: Rescale): Event
    requires e.transfer.contract in o.multipliers
  {
    e.(transfer := e.transfer.(contract := o.newContract,
                               amount := rescale(e.transfer.amount, o.multipliers[e.transfer.contract])))
  }

  predicate AllComplete(overwrites: seq<ContractOverwrite>) {
    forall i :: 0 <= i < |overwrites| ==> Complete(overwrites[i])
  }

  predicate Overwritten(overwrites: seq<ContractOverwrite>, e: Event) {
    exists i :: 0 <= i < |overwrites| && Match(overwrites[i], e)
  }

  /** The event under the first overwrite that matches. */
  function Changed(overwrites: seq<ContractOverwrite>, rescale: Rescale, e: Event): Event
    requires AllComplete(overwrites)
  {
    if overwrites == [] then e
    else if Match(overwrites[0], e) then EditAddressAndAmount(e, overwrites[0], rescale)
    else Changed(overwrites[1..], rescale, e)
  }

  lemma {:induction false} ChangedByFirst(overwrites: seq<ContractOverwrite>, rescale: Rescale, e: Event, k: nat)
    requires AllComplete(overwrites) && k <= |overwrites|
    requires forall i :: 0 <= i < k ==> !Match(overwrites[i], e)
    ensures k < |overwrites| && Match(overwrites[k], e) ==>
              Changed(overwrites, rescale, e) == EditAddressAndAmount(e, overwrites[k], rescale)
    ensures k == |overwrites| ==> Changed(overwrites, rescale, e) == e
  {
    if k > 0 {
      ChangedByFirst(overwrites[1..], rescale, e, k - 1);
    }
  }

  /** Only contract and amount change: the event keeps its place in the chain and its parties. */
  lemma {:induction false} ChangedKeepsPlace(overwrites: seq<ContractOverwrite>, rescale: Rescale, e: Event)
    requires AllComplete(overwrites)
    ensures var c := Changed(overwrites, rescale, e);
            c == e.(transfer := e.transfer.(contract := c.transfer.contract, amount := c.transfer.amount))
    ensures !Overwritten(overwrites, e) ==> Changed(overwrites, rescale, e) == e
  {
    if overwrites != [] && !Match(overwrites[0], e) {
      ChangedKeepsPlace(overwrites[1..], rescale, e);
      if Overwritten(overwrites[1..], e) {
        var i :| 0 <= i < |overwrites[1..]| && Match(overwrites[1..][i], e);
        assert Match(overwrites[i + 1], e);
      }
    }
  }

  /** One event looked up among the overwrites. */
  method ChangeEvent(overwrites: seq<ContractOverwrite>, rescale: Rescale, e: Event)
    returns (found: bool, changed: Event)
    requires AllComplete(overwrites)
    ensures found <==> Overwritten(overwrites, e)
    ensures changed == Changed(overwrites, rescale, e)
  {
    found, changed := false, e;
    var k := 0;
    while k < |overwrites|
      invariant 0 <= k <= |overwrites| && changed == e && !found
      invariant forall i :: 0 <= i < k ==> !Match(overwrites[i], e)
    {
      if e.transfer.contract in overwrites[k].oldAddresses {
        ChangedByFirst(overwrites, rescale, e, k);
        return true, EditAddressAndAmount(e, overwrites[k], rescale);
      }
      k := k + 1;
    }
    ChangedByFirst(overwrites, rescale, e, k);
  }

  function ChangesTo(overwrites: seq<ContractOverwrite>, rescale: Rescale): Event -> Event {
    e => if AllComplete(overwrites) then Changed(overwrites, rescale, e) else e
  }

  function IsOverwritten(overwrites: seq<ContractOverwrite>): Event -> bool {
    e => Overwritten(overwrites, e)
  }

  method ChangeContractAddresses(events: array<Event>, overwrites: seq<ContractOverwrite>, rescale: Rescale)
    requires AllComplete(overwrites)
    modifies events
    ensures events[..] == MapSeq(old(events[..]), ChangesTo(overwrites, rescale))
  {
    ghost var s := events[..];
    MappedEnds(s, ChangesTo(overwrites, rescale));
    for i := 0 to events.Length
      invariant events[..] == MappedUpTo(s, ChangesTo(overwrites, rescale), i)
    {
      assert events[i] == s[i];
      MappedStep(s, ChangesTo(overwrites, rescale), i);
      var found, changed := ChangeEvent(overwrites, rescale, events[i]);
      events[i] := changed;
    }
  }

  /** The changed copies of the events that an overwrite matches, in their order. */
  function Extracted(events: seq<Event>, overwrites: seq<ContractOverwrite>, rescale: Rescale): seq<Event> {
    MapSeq(Filter(events, IsOverwritten(overwrites)), ChangesTo(overwrites, rescale))
  }

  lemma ExtractedStep(events: seq<Event>, overwrites: seq<ContractOverwrite>, rescale: Rescale, i: nat)
    requires i < |events|
    ensures Extracted(events[..i + 1], overwrites, rescale) ==
            if Overwritten(overwrites, events[i])
            then Extracted(events[..i], overwrites, rescale) + [ChangesTo(overwrites, rescale)(events[i])]
            else Extracted(events[..i], overwrites, rescale)
  {
    assert events[..i + 1] == events[..i] + [events[i]];
    FilterSnoc(events[..i], events[i], IsOverwritten(overwrites));
  }

  method ExtractChangedContractAddresses(events: seq<Event>, overwrites: seq<ContractOverwrite>, rescale: Rescale)
    returns (result: seq<Event>)
    requires AllComplete(overwrites)
    ensures result == Extracted(events, overwrites, rescale)
  {
    result := [];
    for i := 0 to |events|
      invariant result == Extracted(events[..i], overwrites, rescale)
    {
      ExtractedStep(events, overwrites, rescale, i);
      var found, changed := ChangeEvent(overwrites, rescale, events[i]);
      if found {
        result := result + [changed];
      }
    }
    assert events[..|events|] == events;
  }
}

/**
 * Contract and amount of an overwritten transfer, told from the configuration: erc20/lib/contract_overwrite.ts.
 */
module OverwrittenAmounts {
  import opened Common
  import opened FetchEvents
  import opened ContractOverwrites

  /** An entry of the configuration: a new address, and the old contracts that it stands for. */
  datatype Entry = Entry(newAddress: string, olds: seq<OldContract>)

  function OverwritesOf(config: seq<Entry>): seq<ContractOverwrite> {
    MapSeq(config, (c: Entry) => MakeOverwrite(c.newAddress, c.olds))
  }

  /** The entry names the contract, whatever the case of its letters. */
  predicate Names(c: Entry, contract: string) {
    exists j :: 0 <= j < |c.olds| && Lower(c.olds[j].address) == contract
  }

  /** The last old contract of an entry with this address. */
  predicate LastWith(olds: seq<OldContract>, contract: string, j: nat) {
    && j < |olds| && Lower(olds[j].address) == contract
    && forall i :: j < i < |olds| ==> Lower(olds[i].address) != contract
  }

  /** The first entry that names the contract. */
  predicate FirstNaming(config: seq<Entry>, contract: string, k: nat) {
    && k < |config| && Names(config[k], contract)
    && forall i :: 0 <= i < k ==> !Names(config[i], contract)
  }

  lemma {:induction false} NamedIffMatched(olds: seq<OldContract>, contract: string)
    ensures contract in OldAddresses(olds) <==> exists j :: 0 <= j < |olds| && Lower(olds[j].address) == contract
  {
    if j :| 0 <= j < |olds| && Lower(olds[j].address) == contract {
      assert OldAddresses(olds)[j] == contract;
    }
  }

  lemma {:induction false} MultiplierIsLast(olds: seq<OldContract>, contract: string, j: nat)
    requires LastWith(olds, contract, j)
    ensures contract in Multipliers(olds) && Multipliers(olds)[contract] == olds[j].multiplier
  {
    if j < |olds| - 1 {
      assert Lower(olds[|olds| - 1].address) != contract;
      MultiplierIsLast(olds[..|olds| - 1], contract, j);
    }
  }

  /** The configuration names one of the transfer's contracts: the entry that decides and its last multiplier. */
  ghost predicate DecidedBy(config: seq<Entry>, contract: string, k: nat, j: nat) {
    FirstNaming(config, contract, k) && LastWith(config[k].olds, contract, j)
  }

  lemma {:induction false} LastExists(olds: seq<OldContract>, contract: string) returns (j: nat)
    requires exists i :: 0 <= i < |olds| && Lower(olds[i].address) == contract
    ensures LastWith(olds, contract, j)
  {
    if Lower(olds[|olds| - 1].address) == contract {
      j := |olds| - 1;
    } else {
      var i :| 0 <= i < |olds| && Lower(olds[i].address) == contract;
      assert olds[..|olds| - 1][i] == olds[i];
      j := LastExists(olds[..|olds| - 1], contract);
    }
  }

  lemma {:induction false} FirstExists(config: seq<Entry>, contract: string) returns (k: nat)
    requires exists i :: 0 <= i < |config| && Names(config[i], contract)
    ensures FirstNaming(config, contract, k)
  {
    if Names(config[0], contract) {
      k := 0;
    } else {
      var i :| 0 <= i < |config| && Names(config[i], contract);
      assert config[1..][i - 1] == config[i];
      var rest := FirstExists(config[1..], contract);
      k := rest + 1;
      assert forall i :: 1 <= i < k ==> config[i] == config[1..][i - 1];
    }
  }

  lemma OverwritesAreComplete(config: seq<Entry>)
    ensures AllComplete(OverwritesOf(config))
  {
    forall i | 0 <= i < |config| ensures Complete(OverwritesOf(config)[i]) {
      MadeOverwriteIsComplete(config[i].newAddress, config[i].olds);
    }
  }

  lemma MatchesIffNamed(config: seq<Entry>, e: Event, i: nat)
    requires i < |config|
    ensures Match(OverwritesOf(config)[i], e) <==> Names(config[i], e.transfer.contract)
  {
    NamedIffMatched(config[i].olds, e.transfer.contract);
  }

  /** Nothing but contract and amount differs: the new address in lower case, and the amount times the multiplier. */
  predicate Renamed(t: Transfer, c: Transfer, newAddress: string, multiplier: real, rescale: Rescale) {
    && c.contract == Lower(newAddress) && c.amount == rescale(t.amount, multiplier)
    && c.sender == t.sender && c.receiver == t.receiver && c.blockNumber == t.blockNumber
    && c.transactionHash == t.transactionHash && c.logIndex == t.logIndex && c.transactionIndex == t.transactionIndex
  }

  /** A transfer whose contract the configuration names is renamed by the first entry that does. */
  lemma ChangedByConfiguration(config: seq<Entry>, rescale: Rescale, e: Event, k: nat, j: nat)
    requires DecidedBy(config, e.transfer.contract, k, j)
    ensures AllComplete(OverwritesOf(config))
    ensures var c := Changed(OverwritesOf(config), rescale, e);
            && Renamed(e.transfer, c.transfer, config[k].newAddress, config[k].olds[j].multiplier, rescale)
            && c.primaryKey == e.primaryKey && c.sides == e.sides
  {
    OverwritesAreComplete(config);
    forall i | 0 <= i <= k ensures Match(OverwritesOf(config)[i], e) <==> Names(config[i], e.transfer.contract) {
      MatchesIffNamed(config, e, i);
    }
    ChangedByFirst(OverwritesOf(config), rescale, e, k);
    MultiplierIsLast(config[k].olds, e.transfer.contract, j);
  }

  /** A transfer is renamed if the configuration names its contract, and otherwise exported as it is. */
  lemma RenamedIffNamed(config: seq<Entry>, rescale: Rescale, e: Event)
    ensures Overwritten(OverwritesOf(config), e)
            <==> exists i :: 0 <= i < |config| && Names(config[i], e.transfer.contract)
    ensures !Overwritten(OverwritesOf(config), e) ==> ChangesTo(OverwritesOf(config), rescale)(e) == e
    ensures Overwritten(OverwritesOf(config), e) ==>
              exists k: nat, j: nat :: DecidedBy(config, e.transfer.contract, k, j)
                && Renamed(e.transfer, ChangesTo(OverwritesOf(config), rescale)(e).transfer, config[k].newAddress,
                           config[k].olds[j].multiplier, rescale)
  {
    OverwritesAreComplete(config);
    forall i | 0 <= i < |config|
      ensures Match(OverwritesOf(config)[i], e) <==> Names(config[i], e.transfer.contract)
    {
      MatchesIffNamed(config, e, i);
    }
    if Overwritten(OverwritesOf(config), e) {
      var k := FirstExists(config, e.transfer.contract);
      var j := LastExists(config[k].olds, e.transfer.contract);
      ChangedByConfiguration(config, rescale, e, k, j);
    } else {
      ChangedKeepsPlace(OverwritesOf(config), rescale, e);
    }
  }

  /** The appended copies: one renamed copy of each transfer that the configuration names, in order. */
  lemma CopiesAreRenamed(config: seq<Entry>, rescale: Rescale, events: seq<Event>, i: nat)
    requires i < |Filter(events, IsOverwritten(OverwritesOf(config)))|
    ensures var named := Filter(events, IsOverwritten(OverwritesOf(config)));
            var copies := Extracted(events, OverwritesOf(config), rescale);
            && |copies| == |named| && named[i] in events
            && exists k: nat, j: nat :: DecidedBy(config, named[i].transfer.contract, k, j)
                 && Renamed(named[i].transfer, copies[i].transfer, config[k].newAddress,
                            config[k].olds[j].multiplier, rescale)
  {
    var named := Filter(events, IsOverwritten(OverwritesOf(config)));
    FilterMember(events, IsOverwritten(OverwritesOf(config)), named[i]);
    RenamedIffNamed(config, rescale, named[i]);
  }
}

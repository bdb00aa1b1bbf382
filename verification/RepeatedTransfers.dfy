/**
 * Which transfers filterEvents of erc20/lib/fetch_events.ts leaves out, told from the fields of the transfers, and
 * that what the transfers tell is none the less for it.
 */
module RepeatedTransfers {
  import opened Common
  import opened FetchEvents
  import opened FilterEvents

  /** A mint among the transfers brings the same amount of the same token to the same receiver. */
  predicate MintTells(run: seq<Transfer>, e: Transfer) {
    exists m :: m in run && m.sender == MINT_ADDRESS
                && m.contract == e.contract && m.amount == e.amount && m.receiver == e.receiver
  }

  /** A burn among the transfers, not itself a mint, takes the same amount of the same token from the same sender. */
  predicate BurnTells(run: seq<Transfer>, e: Transfer) {
    exists b :: b in run && b.sender != MINT_ADDRESS && b.receiver == BURN_ADDRESS
                && b.contract == e.contract && b.amount == e.amount && b.sender == e.sender
  }

  /** The transfer comes from the zero address and a mint tells it, or else goes there and a burn tells it. */
  predicate ToldTwice(run: seq<Transfer>, e: Transfer) {
    || (e.sender == ZERO_ADDRESS && MintTells(run, e))
    || (e.sender != ZERO_ADDRESS && e.receiver == ZERO_ADDRESS && BurnTells(run, e))
  }

  lemma RepeatedIsToldTwice(run: seq<Transfer>, e: Transfer)
    ensures Repeated(run, e) <==> ToldTwice(run, e)
  {
    if m :| m in run && Repeats(m, e) {
      assert m.contract == e.contract && m.amount == e.amount;
    }
    if e.sender == ZERO_ADDRESS && MintTells(run, e) {
      var m :| m in run && m.sender == MINT_ADDRESS
               && m.contract == e.contract && m.amount == e.amount && m.receiver == e.receiver;
      assert Repeats(m, e);
    } else if e.sender != ZERO_ADDRESS && e.receiver == ZERO_ADDRESS && BurnTells(run, e) {
      var b :| b in run && b.sender != MINT_ADDRESS && b.receiver == BURN_ADDRESS
               && b.contract == e.contract && b.amount == e.amount && b.sender == e.sender;
      assert Repeats(b, e);
    }
  }

  /** A transaction loses exactly the transfers that are told twice. */
  lemma AbsentIff(run: Run, e: Transfer)
    requires e in run
    ensures e !in FilterRun(run) <==> ToldTwice(run, e)
  {
    FilterMember(run, Keeps(run), e);
    RepeatedIsToldTwice(run, e);
  }

  /** The events of a transaction. */
  function OfTransaction(events: seq<Transfer>, hash: Hash): seq<Transfer> {
    Filter(events, (t: Transfer) => t.transactionHash == hash)
  }

  lemma RepeatedInItsTransaction(events: seq<Transfer>, e: Transfer)
    ensures RepeatedInTransaction(events, e) <==> ToldTwice(OfTransaction(events, e.transactionHash), e)
  {
    var run := OfTransaction(events, e.transactionHash);
    RepeatedIsToldTwice(run, e);
    forall m ensures m in run <==> m in events && SameTransaction(m, e) {
      FilterMember(events, (t: Transfer) => t.transactionHash == e.transactionHash, m);
    }
    if m :| m in events && SameTransaction(m, e) && Repeats(m, e) {
      assert m in run;
    }
    if m :| m in run && Repeats(m, e) {
      assert m in events;
    }
  }

  /** So with a transaction's events adjacent, what is exported has a hash and is not told twice in its transaction. */
  lemma ExportedIff(events: seq<Transfer>, e: Transfer)
    requires Groupable(events) && Contiguous(Present(events))
    ensures e in Filtered(events) <==>
            e in events && e.transactionHash != 0 && !ToldTwice(OfTransaction(events, e.transactionHash), e)
  {
    FilteringIsByTransaction(events);
    FilterMember(events, KeepsByRule(events), e);
    RepeatedInItsTransaction(events, e);
  }

  // ----- Nothing told is lost -----

  /** A party that stands for no holder: tokens come from it when made, and go to it when destroyed. */
  function Holder(address: string): Option<string> {
    if address in {ZERO_ADDRESS, MINT_ADDRESS, BURN_ADDRESS} then None else Some(address)
  }

  /** What a transfer tells: in a transaction, an amount of a token leaves a holder and reaches another. */
  datatype Told = Told(hash: Hash, contract: string, amount: nat, giver: Option<string>, taker: Option<string>)

  function TellOf(t: Transfer): Told {
    Told(t.transactionHash, t.contract, t.amount, Holder(t.sender), Holder(t.receiver))
  }

  predicate IsTold(events: seq<Transfer>, told: Told) {
    exists i :: 0 <= i < |events| && TellOf(events[i]) == told
  }

  lemma RepeatingTellsTheSame(m: Transfer, e: Transfer)
    requires Repeats(m, e) && SameTransaction(m, e)
    ensures TellOf(m) == TellOf(e)
  {
  }

  lemma RunTellsTheSame(run: Run, told: Told)
    requires OneTransaction(run)
    ensures IsTold(FilterRun(run), told) <==> IsTold(run, told)
  {
    DroppedEventsAreRepeated(run);
    var kept := FilterRun(run);
    if i :| 0 <= i < |kept| && TellOf(kept[i]) == told {
      assert kept[i] in run;
    }
    if i :| 0 <= i < |run| && TellOf(run[i]) == told && run[i] !in kept {
      var m :| m in kept && Repeats(m, run[i]);
      assert m in run;
      RepeatingTellsTheSame(m, run[i]);
    }
  }

  lemma {:induction false} RunsTellTheSame(runs: seq<Run>, told: Told)
    requires forall i :: 0 <= i < |runs| ==> OneTransaction(runs[i])
    ensures IsTold(Flatten(FilterRuns(runs)), told) <==> IsTold(Flatten(runs), told)
  {
    if runs != [] {
      assert FilterRuns(runs)[1..] == FilterRuns(runs[1..]);
      RunTellsTheSame(runs[0], told);
      RunsTellTheSame(runs[1..], told);
      TellAppend(runs[0], Flatten(runs[1..]), told);
      TellAppend(FilterRun(runs[0]), Flatten(FilterRuns(runs[1..])), told);
    }
  }

  lemma TellAppend(a: seq<Transfer>, b: seq<Transfer>, told: Told)
    ensures IsTold(a + b, told) <==> IsTold(a, told) || IsTold(b, told)
  {
    if i :| 0 <= i < |a| && TellOf(a[i]) == told {
      assert (a + b)[i] == a[i];
    }
    if i :| 0 <= i < |b| && TellOf(b[i]) == told {
      assert (a + b)[|a| + i] == b[i];
    }
  }

  lemma GroupsAreOfOneTransaction(events: seq<Transfer>)
    ensures forall i :: 0 <= i < |Grouped(events)| ==> OneTransaction(Grouped(events)[i])
  {
    RunsAreMaximal(Present(events));
    if Groupable(events) {
      GroupsAreTransactions(events);
    } else {
      CutRun(events);
    }
  }

  /** Whatever the list, the exported transfers tell exactly what the transfers with a hash tell. */
  lemma NothingToldIsLost(events: seq<Transfer>, told: Told)
    ensures IsTold(Filtered(events), told) <==> told.hash != 0 && IsTold(events, told)
  {
    GroupsAreOfOneTransaction(events);
    GroupsAreTransactions(events);
    RunsTellTheSame(Grouped(events), told);
    var p := Present(events);
    if i :| 0 <= i < |p| && TellOf(p[i]) == told {
      FilterMember(events, HasHash, p[i]);
    }
    if i :| 0 <= i < |events| && TellOf(events[i]) == told && told.hash != 0 {
      FilterMember(events, HasHash, events[i]);
      assert events[i] in p;
    }
  }
}

/**
 * Dropping the zero-address transfers that repeat a mint or a burn of their transaction: filterEvents of
 * erc20/lib/fetch_events.ts.
 */
module FilterEvents {
  import opened Common
  import opened FetchEvents

  predicate HasHash(e: Transfer) {
    e.transactionHash != 0
  }

  function Present(events: seq<Transfer>): seq<Transfer> {
    Filter(events, HasHash)
  }

  // ----- Maximal runs of one transaction -----

  type Run = seq<Transfer>

  predicate SameTransaction(a: Transfer, b: Transfer) {
    a.transactionHash == b.transactionHash
  }

  /** Whether x continues the last of the runs. */
  predicate Continues(runs: seq<Run>, x: Transfer) {
    runs != [] && runs[|runs| - 1] != [] && SameTransaction(runs[|runs| - 1][|runs[|runs| - 1]| - 1], x)
  }

  function AddToRuns(runs: seq<Run>, x: Transfer): seq<Run> {
    if Continues(runs, x) then runs[..|runs| - 1] + [runs[|runs| - 1] + [x]] else runs + [[x]]
  }

  /** The longest stretches of events of one transaction. */
  function Runs(s: seq<Transfer>): seq<Run> {
    if s == [] then [] else AddToRuns(Runs(s[..|s| - 1]), s[|s| - 1])
  }

  predicate OneTransaction(run: Run) {
    run != [] && forall i :: 0 <= i < |run| ==> SameTransaction(run[i], run[0])
  }

  predicate Apart(a: Run, b: Run) {
    a != [] && b != [] ==> !SameTransaction(a[0], b[0])
  }

  predicate MaximalRuns(runs: seq<Run>) {
    && (forall i :: 0 <= i < |runs| ==> OneTransaction(runs[i]))
    && (forall i {:trigger runs[i]} :: 0 <= i < |runs| - 1 ==> Apart(runs[i], runs[i + 1]))
  }

  lemma FlattenAddToRuns(runs: seq<Run>, x: Transfer)
    ensures Flatten(AddToRuns(runs, x)) == Flatten(runs) + [x]
  {
    if Continues(runs, x) {
      var front, last := runs[..|runs| - 1], runs[|runs| - 1];
      assert runs == front + [last];
      FlattenSnoc(front, last);
      FlattenSnoc(front, last + [x]);
      AppendAssoc(Flatten(front), last, [x]);
    } else {
      FlattenSnoc(runs, [x]);
    }
  }

  lemma AddKeepsMaximal(runs: seq<Run>, x: Transfer)
    requires MaximalRuns(runs)
    ensures MaximalRuns(AddToRuns(runs, x))
  {
    var more := AddToRuns(runs, x);
    var k := |more| - 1;
    forall i | 0 <= i < |more| ensures OneTransaction(more[i]) {
      if i < k { assert more[i] == runs[i]; }
    }
    forall i {:trigger more[i]} | 0 <= i < k ensures Apart(more[i], more[i + 1]) {
      assert more[i] == runs[i];
      if i + 1 < k {
        assert more[i + 1] == runs[i + 1];
      }
    }
  }

  /** Cutting into runs loses nothing, and the runs are maximal. */
  lemma {:induction false} RunsAreMaximal(s: seq<Transfer>)
    ensures Flatten(Runs(s)) == s
    ensures MaximalRuns(Runs(s))
  {
    if s != [] {
      var init, x := s[..|s| - 1], s[|s| - 1];
      RunsAreMaximal(init);
      FlattenAddToRuns(Runs(init), x);
      AddKeepsMaximal(Runs(init), x);
      assert s == init + [x];
    }
  }

  /** The transaction changes where b follows a. */
  predicate Boundary(a: seq<Transfer>, b: seq<Transfer>) {
    a != [] && b != [] ==> !SameTransaction(a[|a| - 1], b[0])
  }

  /** The last event of s is the last of the last run. */
  lemma LastRun(s: seq<Transfer>)
    requires s != []
    ensures var runs := Runs(s);
            runs != [] && runs[|runs| - 1] != [] && runs[|runs| - 1][|runs[|runs| - 1]| - 1] == s[|s| - 1]
  {
    var before := Runs(s[..|s| - 1]);
  }

  lemma RunsSnoc(s: seq<Transfer>, x: Transfer)
    ensures Runs(s + [x]) == AddToRuns(Runs(s), x)
  {
    var all := s + [x];
    assert all[..|all| - 1] == s && all[|all| - 1] == x;
  }

  lemma ContinuesIff(s: seq<Transfer>, x: Transfer)
    ensures Continues(Runs(s), x) <==> s != [] && SameTransaction(s[|s| - 1], x)
  {
    if s != [] {
      LastRun(s);
    }
  }

  lemma RunsStep(s: seq<Transfer>, x: Transfer)
    ensures Runs(s + [x]) == AddToRuns(Runs(s), x)
    ensures Continues(Runs(s), x) <==> s != [] && SameTransaction(s[|s| - 1], x)
  {
    RunsSnoc(s, x);
    ContinuesIff(s, x);
  }

  lemma AddBehind(a: seq<Run>, b: seq<Run>, x: Transfer)
    requires b != [] || !Continues(a, x)
    ensures AddToRuns(a + b, x) == a + AddToRuns(b, x)
  {
    if b == [] {
      assert a + b == a;
    } else {
      assert (a + b)[|a + b| - 1] == b[|b| - 1];
      assert (a + b)[..|a + b| - 1] == a + b[..|b| - 1];
    }
  }

  lemma {:induction false} RunsAppend(a: seq<Transfer>, b: seq<Transfer>)
    requires Boundary(a, b)
    ensures Runs(a + b) == Runs(a) + Runs(b)
  {
    if b == [] {
      assert a + b == a && Runs(b) == [];
    } else {
      var init, x := b[..|b| - 1], b[|b| - 1];
      assert b == init + [x] && a + b == (a + init) + [x];
      RunsAppend(a, init);
      RunsStep(a + init, x);
      RunsStep(init, x);
      RunsStep(a, x);
      if init != [] {
        LastRun(init);
      }
      AddBehind(Runs(a), Runs(init), x);
    }
  }

  lemma {:induction false} OneRun(run: Run)
    requires OneTransaction(run)
    ensures Runs(run) == [run]
  {
    var init, x := run[..|run| - 1], run[|run| - 1];
    assert run == init + [x];
    RunsStep(init, x);
    if init != [] {
      OneRun(init);
    } else {
      assert Runs(init) == [] && run == [x];
    }
  }

  lemma MaximalRest(runs: seq<Run>)
    requires MaximalRuns(runs) && runs != []
    ensures MaximalRuns(runs[1..])
    ensures |runs| > 1 ==> Apart(runs[0], runs[1])
  {
    var rest := runs[1..];
    forall i {:trigger rest[i]} | 0 <= i < |rest| - 1 ensures Apart(rest[i], rest[i + 1]) {
      assert rest[i] == runs[i + 1] && rest[i + 1] == runs[i + 1 + 1];
    }
    if |runs| > 1 {
      assert runs[0] == runs[0] && Apart(runs[0], runs[0 + 1]);
    }
  }

  /** Between a first run and what follows, the transaction changes. */
  lemma FirstBoundary(runs: seq<Run>)
    requires MaximalRuns(runs) && runs != []
    ensures Boundary(runs[0], Flatten(runs[1..]))
  {
    MaximalRest(runs);
    if |runs| > 1 {
      assert Flatten(runs[1..]) == runs[1] + Flatten(runs[1..][1..]);
      assert OneTransaction(runs[0]) && OneTransaction(runs[1]);
    }
  }

  /** There is only one way to cut into maximal runs. */
  lemma {:induction false} MaximalRunsAreUnique(runs: seq<Run>)
    requires MaximalRuns(runs)
    ensures Runs(Flatten(runs)) == runs
  {
    if runs != [] {
      var rest := runs[1..];
      MaximalRest(runs);
      MaximalRunsAreUnique(rest);
      OneRun(runs[0]);
      FirstBoundary(runs);
      RunsAppend(runs[0], Flatten(rest));
      assert runs == [runs[0]] + rest;
    }
  }

  // ----- What getEventsByTransaction yields -----

  /** Runs of p, except that without `first` the first event is kept in a run of its own. */
  function GroupsOf(p: seq<Transfer>, first: bool): seq<Run> {
    if first then Runs(p) else if p == [] then [] else [[p[0]]] + Runs(p[1..])
  }

  function Grouped(events: seq<Transfer>): seq<Run> {
    GroupsOf(Present(events), events != [] && HasHash(events[0]))
  }

  /** The list does not open with an event without hash, followed by two of one transaction. */
  predicate Groupable(events: seq<Transfer>) {
    var p := Present(events);
    events == [] || HasHash(events[0]) || |p| < 2 || !SameTransaction(p[0], p[1])
  }

  lemma LooseGroupsFlatten(p: seq<Transfer>)
    ensures Flatten(GroupsOf(p, false)) == p
  {
    if p != [] {
      RunsAreMaximal(p[1..]);
      FlattenAppend([[p[0]]], Runs(p[1..]));
      assert Flatten([[p[0]]]) == [p[0]] + Flatten([]);
      assert p == [p[0]] + p[1..];
    }
  }

  lemma FirstIsAlone(p: seq<Transfer>)
    requires |p| >= 2 && MaximalRuns(GroupsOf(p, false))
    ensures !SameTransaction(p[0], p[1])
  {
    var groups := GroupsOf(p, false);
    RunsAreMaximal(p[1..]);
    assert groups[0] == [p[0]] && groups[1..] == Runs(p[1..]);
    FirstBoundary(groups);
  }

  lemma LooseGroups(p: seq<Transfer>)
    ensures GroupsOf(p, false) == Runs(p) <==> |p| < 2 || !SameTransaction(p[0], p[1])
  {
    if |p| >= 2 && SameTransaction(p[0], p[1]) {
      RunsAreMaximal(p);
      if GroupsOf(p, false) == Runs(p) {
        FirstIsAlone(p);
        assert false;
      }
    } else if p != [] {
      OneRun([p[0]]);
      RunsAppend([p[0]], p[1..]);
      assert p == [p[0]] + p[1..];
    }
  }

  /** The groups are the runs exactly when the list is groupable; and no present event is lost either way. */
  lemma GroupsAreTransactions(events: seq<Transfer>)
    ensures Flatten(Grouped(events)) == Present(events)
    ensures Grouped(events) == Runs(Present(events)) <==> Groupable(events)
  {
    RunsAreMaximal(Present(events));
    LooseGroupsFlatten(Present(events));
    LooseGroups(Present(events));
    if events == [] {
      assert Present(events) == [];
    }
  }

  /** Whether x goes to the group of the last event of p. */
  predicate Joins(p: seq<Transfer>, first: bool, x: Transfer) {
    p != [] && (first || |p| >= 2) && SameTransaction(p[|p| - 1], x)
  }

  lemma GroupsStep(p: seq<Transfer>, first: bool, x: Transfer)
    ensures GroupsOf(p + [x], first) ==
            if Joins(p, first, x) then AddToRuns(GroupsOf(p, first), x) else GroupsOf(p, first) + [[x]]
    ensures Joins(p, first, x) ==> Continues(GroupsOf(p, first), x)
  {
    if first {
      RunsStep(p, x);
    } else if p == [] {
      assert (p + [x])[1..] == [];
    } else {
      assert (p + [x])[1..] == p[1..] + [x];
      RunsStep(p[1..], x);
      AppendAssoc([[p[0]]], Runs(p[1..]), [[x]]);
      if |p| > 1 {
        LastRun(p[1..]);
        AddBehind([[p[0]]], Runs(p[1..]), x);
      }
    }
  }

  /** Where the scan stands after the present events p. */
  ghost predicate Scanned(p: seq<Transfer>, first: bool, hash: Hash, groups: seq<Run>, open: Run) {
    && (p == [] <==> open == [])
    && GroupsOf(p, first) == (if open == [] then groups else groups + [open])
    && (if first || |p| >= 2 then p != [] ==> hash == p[|p| - 1].transactionHash else hash == 0)
  }

  lemma ScanStep(p: seq<Transfer>, first: bool, hash: Hash, groups: seq<Run>, open: Run, x: Transfer)
    requires Scanned(p, first, hash, groups, open) && HasHash(x)
    requires first && p == [] ==> hash == x.transactionHash
    ensures if x.transactionHash != hash && open != []
            then Scanned(p + [x], first, x.transactionHash, groups + [open], [x])
            else Scanned(p + [x], first, hash, groups, open + [x])
  {
    GroupsStep(p, first, x);
    if open == [] {
      assert open + [x] == [x];
    } else {
      assert (groups + [open])[..|groups|] == groups;
    }
  }

  /** The hash being collected, the groups before, and the events collected. */
  datatype Scan = Scan(hash: Hash, groups: seq<Run>, open: Run)

  function Read(s: Scan, x: Transfer): Scan {
    if !HasHash(x) then s
    else if x.transactionHash != s.hash && s.open != [] then Scan(x.transactionHash, s.groups + [s.open], [x])
    else s.(open := s.open + [x])
  }

  function ScanOf(events: seq<Transfer>, n: nat): Scan
    requires n <= |events| && events != []
  {
    if n == 0 then Scan(events[0].transactionHash, [], []) else Read(ScanOf(events, n - 1), events[n - 1])
  }

  /** What the scan has found in the first n events. */
  ghost predicate ScannedTo(events: seq<Transfer>, n: nat, s: Scan)
    requires n <= |events| && events != []
  {
    && Scanned(Present(events[..n]), HasHash(events[0]), s.hash, s.groups, s.open)
    && (HasHash(events[0]) && Present(events[..n]) == [] ==> n == 0 && s.hash == events[0].transactionHash)
  }

  lemma ScanReads(events: seq<Transfer>, n: nat, s: Scan)
    requires n < |events| && ScannedTo(events, n, s)
    ensures ScannedTo(events, n + 1, Read(s, events[n]))
  {
    FilterStep(events, HasHash, n);
    if HasHash(events[n]) {
      ScanStep(Present(events[..n]), HasHash(events[0]), s.hash, s.groups, s.open, events[n]);
    }
  }

  lemma ScanStarts(events: seq<Transfer>)
    requires events != []
    ensures ScannedTo(events, 0, ScanOf(events, 0))
  {
    assert events[..0] == [];
  }

  lemma {:induction false} ScanHolds(events: seq<Transfer>, n: nat)
    requires n <= |events| && events != []
    ensures ScannedTo(events, n, ScanOf(events, n))
  {
    if n == 0 {
      ScanStarts(events);
    } else {
      ScanHolds(events, n - 1);
      ScanReads(events, n - 1, ScanOf(events, n - 1));
    }
  }

  lemma ScanEnds(events: seq<Transfer>)
    requires events != []
    ensures var s := ScanOf(events, |events|);
            Grouped(events) == if s.open == [] then s.groups else s.groups + [s.open]
  {
    ScanHolds(events, |events|);
    assert events[..|events|] == events;
  }

  method GetEventsByTransaction(events: seq<Transfer>) returns (groups: seq<Run>)
    ensures groups == Grouped(events)
  {
    groups := [];
    if |events| == 0 {
      return;
    }
    var curTransactionHash := events[0].transactionHash;
    var curTransactionEvents: Run := [];
    for i := 0 to |events|
      invariant Scan(curTransactionHash, groups, curTransactionEvents) == ScanOf(events, i)
    {
      var event := events[i];
      if event.transactionHash != 0 {
        if event.transactionHash != curTransactionHash {
          if |curTransactionEvents| > 0 {
            groups := groups + [curTransactionEvents];
            curTransactionHash := event.transactionHash;
            curTransactionEvents := [];
            assert curTransactionEvents + [event] == [event];
          }
        }
        curTransactionEvents := curTransactionEvents + [event];
      }
    }
    ScanEnds(events);
    if |curTransactionEvents| > 0 {
      groups := groups + [curTransactionEvents];
    }
  }

  // ----- Filtering one transaction -----

  predicate IsMint(m: Transfer) { m.sender == MINT_ADDRESS }

  predicate IsBurn(b: Transfer) { b.sender != MINT_ADDRESS && b.receiver == BURN_ADDRESS }

  predicate SameToken(m: Transfer, e: Transfer) { m.contract == e.contract && m.amount == e.amount }

  /** The mint or burn m says the same as the zero-address transfer e. */
  predicate Repeats(m: Transfer, e: Transfer) {
    if e.sender == ZERO_ADDRESS then IsMint(m) && SameToken(m, e) && m.receiver == e.receiver
    else e.receiver == ZERO_ADDRESS && IsBurn(m) && SameToken(m, e) && m.sender == e.sender
  }

  predicate Repeated(run: Run, e: Transfer) {
    exists m :: m in run && Repeats(m, e)
  }

  function Keeps(run: Run): Transfer -> bool {
    e => !Repeated(run, e)
  }

  function FilterRun(run: Run): Run {
    Filter(run, Keeps(run))
  }

  /** The event that makes another superfluous is never dropped itself. */
  lemma RepeatingEventIsKept(run: Run, m: Transfer, e: Transfer)
    requires Repeats(m, e)
    ensures !Repeated(run, m)
  {
    assert MINT_ADDRESS[0] == 'm' && BURN_ADDRESS[0] == 'b' && ZERO_ADDRESS[0] == '0';
  }

  /** Nothing is lost: a dropped event is still told by a mint or burn that is kept, and no transaction vanishes. */
  lemma DroppedEventsAreRepeated(run: Run)
    ensures forall e :: e in run && e !in FilterRun(run) ==> Repeated(FilterRun(run), e)
    ensures forall e :: e in FilterRun(run) ==> e in run && !Repeated(run, e)
    ensures run != [] ==> FilterRun(run) != []
  {
    forall e | e in run ensures e in FilterRun(run) || Repeated(FilterRun(run), e) {
      FilterMember(run, Keeps(run), e);
      if Repeated(run, e) {
        var m :| m in run && Repeats(m, e);
        RepeatingEventIsKept(run, m, e);
        FilterMember(run, Keeps(run), m);
      }
    }
    forall e | e in FilterRun(run) ensures e in run && !Repeated(run, e) {
      FilterMember(run, Keeps(run), e);
    }
    if run != [] {
      assert run[0] in FilterRun(run) || Repeated(FilterRun(run), run[0]);
    }
  }

  lemma FilterRunTwice(run: Run)
    ensures FilterRun(FilterRun(run)) == FilterRun(run)
  {
    DroppedEventsAreRepeated(run);
    FilterAll(FilterRun(run), Keeps(FilterRun(run)));
  }

  lemma RepeatedIffListed(run: Run, e: Transfer)
    ensures e.sender == ZERO_ADDRESS ==>
              (Repeated(run, e) <==>
               exists m :: m in Filter(run, IsMint) && SameToken(m, e) && m.receiver == e.receiver)
    ensures e.sender != ZERO_ADDRESS && e.receiver == ZERO_ADDRESS ==>
              (Repeated(run, e) <==>
               exists b :: b in Filter(run, IsBurn) && SameToken(b, e) && b.sender == e.sender)
  {
    forall m ensures m in Filter(run, IsMint) <==> m in run && IsMint(m) { FilterMember(run, IsMint, m); }
    forall b ensures b in Filter(run, IsBurn) <==> b in run && IsBurn(b) { FilterMember(run, IsBurn, b); }
  }

  /** The mints and burns of a transaction. */
  method ListMintsAndBurns(run: Run) returns (mintEvents: Run, burnEvents: Run)
    ensures mintEvents == Filter(run, IsMint) && burnEvents == Filter(run, IsBurn)
  {
    mintEvents, burnEvents := [], [];
    for i := 0 to |run|
      invariant mintEvents == Filter(run[..i], IsMint) && burnEvents == Filter(run[..i], IsBurn)
    {
      FilterStep(run, IsMint, i);
      FilterStep(run, IsBurn, i);
      if run[i].sender == MINT_ADDRESS {
        mintEvents := mintEvents + [run[i]];
      } else if run[i].receiver == BURN_ADDRESS {
        burnEvents := burnEvents + [run[i]];
      }
    }
    assert run[..|run|] == run;
  }

  method FilterTransactionEvents(run: Run) returns (result: Run)
    ensures result == FilterRun(run)
  {
    var mintEvents, burnEvents := ListMintsAndBurns(run);
    result := [];
    for i := 0 to |run|
      invariant result == Filter(run[..i], Keeps(run))
    {
      var event := run[i];
      FilterStep(run, Keeps(run), i);
      RepeatedIffListed(run, event);
      if event.sender == ZERO_ADDRESS {
        var found := exists m :: m in mintEvents && SameToken(m, event) && m.receiver == event.receiver;
        if !found {
          result := result + [event];
        }
      } else if event.receiver == ZERO_ADDRESS {
        var found := exists b :: b in burnEvents && SameToken(b, event) && b.sender == event.sender;
        if !found {
          result := result + [event];
        }
      } else {
        result := result + [event];
      }
    }
    assert run[..|run|] == run;
  }

  // ----- Filtering all transactions -----

  function FilterRuns(runs: seq<Run>): seq<Run> {
    MapSeq(runs, FilterRun)
  }

  function Filtered(events: seq<Transfer>): seq<Transfer> {
    Flatten(FilterRuns(Grouped(events)))
  }

  method FilterAllEvents(events: seq<Transfer>) returns (result: seq<Transfer>)
    ensures result == Filtered(events)
  {
    var groups := GetEventsByTransaction(events);
    result := [];
    for i := 0 to |groups|
      invariant result == Flatten(FilterRuns(groups[..i]))
    {
      var curResult := FilterTransactionEvents(groups[i]);
      assert FilterRuns(groups[..i + 1]) == FilterRuns(groups[..i]) + [curResult];
      FlattenSnoc(FilterRuns(groups[..i]), curResult);
      result := result + curResult;
    }
    assert groups[..|groups|] == groups;
  }

  lemma HashesPresent(events: seq<Transfer>)
    requires forall e :: e in events ==> HasHash(e)
    ensures Present(events) == events && Groupable(events) && Grouped(events) == Runs(events)
  {
    FilterAll(events, HasHash);
    GroupsAreTransactions(events);
  }

  lemma FilteredRunIsPart(run: Run)
    requires OneTransaction(run)
    ensures OneTransaction(FilterRun(run)) && SameTransaction(FilterRun(run)[0], run[0])
  {
    DroppedEventsAreRepeated(run);
    var kept := FilterRun(run);
    forall i | 0 <= i < |kept| ensures SameTransaction(kept[i], run[0]) {
      assert kept[i] in run;
    }
  }

  lemma FilterKeepsMaximal(runs: seq<Run>)
    requires MaximalRuns(runs)
    ensures MaximalRuns(FilterRuns(runs))
  {
    var kept := FilterRuns(runs);
    forall i | 0 <= i < |runs| ensures OneTransaction(kept[i]) && SameTransaction(kept[i][0], runs[i][0]) {
      FilteredRunIsPart(runs[i]);
    }
    forall i {:trigger kept[i]} | 0 <= i < |runs| - 1 ensures Apart(kept[i], kept[i + 1]) {
      assert Apart(runs[i], runs[i + 1]);
    }
  }

  lemma FilterRunsTwice(runs: seq<Run>)
    ensures FilterRuns(FilterRuns(runs)) == FilterRuns(runs)
  {
    forall i | 0 <= i < |runs| ensures FilterRun(FilterRun(runs[i])) == FilterRun(runs[i]) {
      FilterRunTwice(runs[i]);
    }
  }

  /** What is exported has a hash and was there before; the order of what stays is that of the events. */
  lemma {:induction false} FilteredIsPart(runs: seq<Run>, e: Transfer)
    requires e in Flatten(FilterRuns(runs))
    ensures e in Flatten(runs)
  {
    FlattenMember(FilterRuns(runs), e);
    var i :| 0 <= i < |runs| && e in FilterRuns(runs)[i];
    DroppedEventsAreRepeated(runs[i]);
    FlattenMember(runs, e);
  }

  lemma FilteredHasHashes(events: seq<Transfer>, e: Transfer)
    requires e in Filtered(events)
    ensures e in events && HasHash(e)
  {
    FilteredIsPart(Grouped(events), e);
    GroupsAreTransactions(events);
    FilterMember(events, HasHash, e);
  }

  /** Filtering a second time changes nothing. */
  lemma FilteringIsIdempotent(events: seq<Transfer>)
    requires Groupable(events)
    ensures Filtered(Filtered(events)) == Filtered(events)
  {
    var kept := FilterRuns(Grouped(events));
    GroupsAreTransactions(events);
    RunsAreMaximal(Present(events));
    FilterKeepsMaximal(Grouped(events));
    MaximalRunsAreUnique(kept);
    forall e | e in Filtered(events) ensures HasHash(e) { FilteredHasHashes(events, e); }
    HashesPresent(Filtered(events));
    FilterRunsTwice(Grouped(events));
  }

  /**
   * The present events when the first of them was cut off from its transaction: it, the rest of its run, and what
   * follows.
   */
  lemma CutRun(events: seq<Transfer>)
    requires !Groupable(events)
    ensures var p := Present(events);
            && |p| >= 2 && Runs(p[1..]) != []
            && Grouped(events) == [[p[0]]] + Runs(p[1..])
            && MaximalRuns(Runs(p[1..])) && SameTransaction(Runs(p[1..])[0][0], p[0])
  {
    var rest := Present(events)[1..];
    var runs: seq<Run> := Runs(rest);
    RunsAreMaximal(rest);
    assert Flatten(runs) == runs[0] + Flatten(runs[1..]);
    assert OneTransaction(runs[0]);
  }

  lemma PutBack(x: Transfer, kept: seq<Run>)
    requires MaximalRuns(kept) && kept != [] && SameTransaction(kept[0][0], x)
    ensures Runs([x] + Flatten(kept)) == [[x] + kept[0]] + kept[1..]
  {
    var whole := [[x] + kept[0]] + kept[1..];
    assert OneTransaction(kept[0]);
    assert MaximalRuns(whole) by {
      MaximalRest(kept);
      forall i | 0 <= i < |whole| ensures OneTransaction(whole[i]) {
        if i > 0 { assert whole[i] == kept[i]; }
      }
      forall i {:trigger whole[i]} | 0 <= i < |whole| - 1 ensures Apart(whole[i], whole[i + 1]) {
        assert Apart(kept[i], kept[i + 1]);
      }
    }
    MaximalRunsAreUnique(whole);
    assert whole[1..] == kept[1..];
    AppendAssoc([x], kept[0], Flatten(kept[1..]));
  }

  /** The cut hides that an exported event of the rest of the run repeats the first, or is repeated by it. */
  predicate CutHidesRepetition(events: seq<Transfer>)
    requires !Groupable(events)
    ensures CutHidesRepetition(events) ==> |Present(events)| >= 2
  {
    CutRun(events);
    var first := Present(events)[0];
    exists e :: e in FilterRun(Runs(Present(events)[1..])[0]) && (Repeats(first, e) || Repeats(e, first))
  }

  lemma SecondPassOnRun(x: Transfer, run: Run)
    ensures FilterRun([x] + FilterRun(run)) == [x] + FilterRun(run)
        <==> !exists e :: e in FilterRun(run) && (Repeats(x, e) || Repeats(e, x))
  {
    var kept := FilterRun(run);
    var whole := [x] + kept;
    DroppedEventsAreRepeated(run);
    FilterShrinks(whole, Keeps(whole));
    assert forall m :: m in whole <==> m == x || m in kept;
    if Repeats(x, x) {
      RepeatingEventIsKept([x], x, x);
      assert Repeated([x], x);
    }
    if FilterRun(whole) == whole {
      forall e | e in kept ensures !Repeats(x, e) && !Repeats(e, x) {
        assert Keeps(whole)(e) && Keeps(whole)(x) && x in whole && e in whole;
      }
    } else if !exists e :: e in kept && (Repeats(x, e) || Repeats(e, x)) {
      forall e | e in whole ensures !Repeated(whole, e) {
      }
      FilterAll(whole, Keeps(whole));
    }
  }

  lemma OneKept(x: Transfer)
    ensures FilterRun([x]) == [x]
  {
    DroppedEventsAreRepeated([x]);
    assert FilterRun([x])[0] in [x];
    FilterAll([x], Keeps([x]));
  }

  lemma FirstPassAfterCut(events: seq<Transfer>)
    requires !Groupable(events)
    ensures var p := Present(events);
            var kept := FilterRuns(Runs(p[1..]));
            && kept != [] && MaximalRuns(kept) && SameTransaction(kept[0][0], p[0])
            && Filtered(events) == [p[0]] + Flatten(kept)
            && kept[0] == FilterRun(Runs(p[1..])[0])
  {
    CutRun(events);
    var p := Present(events);
    var runs: seq<Run> := Runs(p[1..]);
    FilterKeepsMaximal(runs);
    FilteredRunIsPart(runs[0]);
    OneKept(p[0]);
    assert FilterRuns(Grouped(events)) == [[p[0]]] + FilterRuns(runs);
    FlattenAppend([[p[0]]], FilterRuns(runs));
    assert Flatten([[p[0]]]) == [p[0]] + Flatten([[p[0]]][1..]);
  }

  lemma FlattenFirst(first: Run, rest: seq<Run>)
    ensures Flatten([first] + rest) == first + Flatten(rest)
    ensures FilterRuns([first] + rest) == [FilterRun(first)] + FilterRuns(rest)
  {
    assert ([first] + rest)[1..] == rest;
  }

  /**
   * When the list opens with an event without hash inside a transaction, a second pass may still drop events: exactly
   * then.
   */
  lemma SecondPassAfterCut(events: seq<Transfer>)
    requires !Groupable(events)
    ensures Filtered(Filtered(events)) == Filtered(events) <==> !CutHidesRepetition(events)
  {
    FirstPassAfterCut(events);
    var first := Present(events)[0];
    var runs: seq<Run> := Runs(Present(events)[1..]);
    var kept := FilterRuns(runs);
    var whole, rest := [first] + kept[0], kept[1..];
    forall e | e in Filtered(events) ensures HasHash(e) { FilteredHasHashes(events, e); }
    HashesPresent(Filtered(events));
    PutBack(first, kept);
    FilterRunsTwice(runs[1..]);
    assert rest == FilterRuns(runs[1..]);
    FlattenFirst(whole, rest);
    FlattenFirst(FilterRun(whole), rest);
    AppendAssoc([first], kept[0], Flatten(rest));
    CancelRest(FilterRun(whole), whole, Flatten(rest));
    SecondPassOnRun(first, runs[0]);
  }

  lemma CancelRest<T>(a: seq<T>, b: seq<T>, rest: seq<T>)
    ensures a + rest == b + rest <==> a == b
  {
    if a + rest == b + rest {
      assert |a| == |b|;
      assert a == (a + rest)[..|a|] && b == (b + rest)[..|b|];
    }
  }

  // ----- Agreement with the rule "a mint or burn of the same transaction repeats it" -----

  /** Events of one transaction are next to one another. */
  ghost predicate Contiguous(s: seq<Transfer>) {
    forall i, j, k :: 0 <= i < j < k < |s| && SameTransaction(s[i], s[k]) ==> SameTransaction(s[j], s[k])
  }

  predicate RepeatedInTransaction(events: seq<Transfer>, e: Transfer) {
    exists m :: m in events && SameTransaction(m, e) && Repeats(m, e)
  }

  function KeepsByRule(events: seq<Transfer>): Transfer -> bool {
    e => HasHash(e) && !RepeatedInTransaction(events, e)
  }

  predicate DistinctRuns(runs: seq<Run>) {
    forall i, j :: 0 <= i < j < |runs| ==> Apart(runs[i], runs[j])
  }

  lemma LaterIsNew(s: seq<Transfer>, x: Transfer, j: nat)
    requires Contiguous(s + [x]) && j < |s| && SameTransaction(s[j], x)
    ensures SameTransaction(s[|s| - 1], x)
  {
    var all := s + [x];
    assert all[j] == s[j] && all[|s| - 1] == s[|s| - 1] && all[|s|] == x;
  }

  /** A transaction that a run tells of, and that comes again, is that of the last event. */
  lemma RunIsApart(s: seq<Transfer>, x: Transfer, i: nat)
    requires Contiguous(s + [x]) && i < |Runs(s)| && !(s != [] && SameTransaction(s[|s| - 1], x))
    ensures Apart(Runs(s)[i], [x])
  {
    var runs := Runs(s);
    RunsAreMaximal(s);
    assert OneTransaction(runs[i]);
    FlattenMember(runs, runs[i][0]);
    var j :| 0 <= j < |s| && s[j] == runs[i][0];
    if SameTransaction(s[j], x) {
      LaterIsNew(s, x, j);
    }
  }

  lemma AppendKeepsDistinct(runs: seq<Run>, x: Transfer)
    requires DistinctRuns(runs) && forall i :: 0 <= i < |runs| ==> Apart(runs[i], [x])
    ensures DistinctRuns(runs + [[x]])
  {
  }

  lemma ExtendKeepsDistinct(runs: seq<Run>, x: Transfer)
    requires DistinctRuns(runs) && Continues(runs, x)
    ensures DistinctRuns(AddToRuns(runs, x))
  {
    var last := runs[|runs| - 1];
    assert (last + [x])[0] == last[0];
  }

  lemma AddKeepsDistinct(s: seq<Transfer>, x: Transfer)
    requires Contiguous(s + [x]) && DistinctRuns(Runs(s))
    ensures DistinctRuns(AddToRuns(Runs(s), x))
  {
    var runs := Runs(s);
    ContinuesIff(s, x);
    if Continues(runs, x) {
      ExtendKeepsDistinct(runs, x);
    } else {
      forall i | 0 <= i < |runs| ensures Apart(runs[i], [x]) {
        RunIsApart(s, x, i);
      }
      AppendKeepsDistinct(runs, x);
    }
  }

  lemma {:induction false} ContiguousRunsAreDistinct(s: seq<Transfer>)
    requires Contiguous(s)
    ensures DistinctRuns(Runs(s))
  {
    if s != [] {
      var init, x := s[..|s| - 1], s[|s| - 1];
      assert s == init + [x];
      ContiguousRunsAreDistinct(init);
      AddKeepsDistinct(init, x);
    }
  }

  ghost predicate AgreeOnRun(run: Run, p: Transfer -> bool) {
    forall e :: e in run ==> p(e) == Keeps(run)(e)
  }

  lemma {:induction false} FilterRunsByRule(runs: seq<Run>, p: Transfer -> bool)
    requires forall i :: 0 <= i < |runs| ==> AgreeOnRun(runs[i], p)
    ensures Flatten(FilterRuns(runs)) == Filter(Flatten(runs), p)
  {
    if runs != [] {
      assert FilterRuns(runs)[1..] == FilterRuns(runs[1..]);
      FilterRunsByRule(runs[1..], p);
      assert AgreeOnRun(runs[0], p);
      FilterSame(runs[0], p, Keeps(runs[0]));
      FilterAppend(runs[0], Flatten(runs[1..]), p);
    }
  }

  lemma RuleAgreesOnRun(events: seq<Transfer>, i: nat)
    requires Contiguous(Present(events)) && i < |Runs(Present(events))|
    ensures AgreeOnRun(Runs(Present(events))[i], KeepsByRule(events))
  {
    var p := Present(events);
    var runs := Runs(p);
    RunsAreMaximal(p);
    ContiguousRunsAreDistinct(p);
    forall e | e in runs[i] ensures HasHash(e) && (Repeated(runs[i], e) <==> RepeatedInTransaction(events, e)) {
      FlattenMember(runs, e);
      FilterMember(events, HasHash, e);
      forall m ensures m in runs[i] <==> m in events && SameTransaction(m, e) {
        SameRun(events, i, e, m);
      }
    }
  }

  /** With distinct runs, the run of e holds the events of its transaction and no other. */
  lemma SameRun(events: seq<Transfer>, i: nat, e: Transfer, m: Transfer)
    requires var runs := Runs(Present(events));
             MaximalRuns(runs) && DistinctRuns(runs) && i < |runs| && e in runs[i] && HasHash(e)
    ensures m in Runs(Present(events))[i] <==> m in events && SameTransaction(m, e)
  {
    var p := Present(events);
    var runs := Runs(p);
    RunsAreMaximal(p);
    FlattenMember(runs, m);
    FilterMember(events, HasHash, m);
    assert OneTransaction(runs[i]);
    if m in events && SameTransaction(m, e) {
      var j :| 0 <= j < |runs| && m in runs[j];
      assert OneTransaction(runs[j]);
    }
  }

  /**
   * When a transaction's events are next to one another, filtering keeps exactly the events with a
   * hash that no mint or burn of their transaction repeats, in their order.
   */
  lemma FilteringIsByTransaction(events: seq<Transfer>)
    requires Groupable(events) && Contiguous(Present(events))
    ensures Filtered(events) == Filter(events, KeepsByRule(events))
  {
    GroupsAreTransactions(events);
    forall i | 0 <= i < |Grouped(events)| ensures AgreeOnRun(Grouped(events)[i], KeepsByRule(events)) {
      RuleAgreesOnRun(events, i);
    }
    FilterRunsByRule(Grouped(events), KeepsByRule(events));
    FilterOfFilter(events, HasHash, KeepsByRule(events));
  }
}

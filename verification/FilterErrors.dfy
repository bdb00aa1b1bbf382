/** Dropping the failed traces of a list of transactions, eth/lib/filter_errors.ts. */
module FilterErrors {
  import opened Common
  import opened TraceRules
  import opened TraceTrie

  /** The positions below n with the property, in ascending order. */
  ghost function Positions(n: nat, p: nat -> bool): (ps: seq<nat>)
    ensures forall k :: 0 <= k < |ps| ==> ps[k] < n
  {
    if n == 0 then [] else Positions(n - 1, p) + if p(n - 1) then [n - 1] else []
  }

  lemma {:induction false} PositionsFacts(n: nat, p: nat -> bool, ps: seq<nat>)
    requires ps == Positions(n, p)
    ensures forall k :: 0 <= k < |ps| ==> p(ps[k])
    ensures forall k, l :: 0 <= k < l < |ps| ==> ps[k] < ps[l]
    ensures forall i: nat :: i < n && p(i) ==> i in ps
  {
    if n > 0 {
      var qs := Positions(n - 1, p);
      PositionsFacts(n - 1, p, qs);
      assert ps == if p(n - 1) then qs + [n - 1] else qs;
    }
  }

  ghost function Pick<T>(s: seq<T>, ps: seq<nat>): (r: seq<T>)
    requires forall k :: 0 <= k < |ps| ==> ps[k] < |s|
    ensures |r| == |ps| && forall k :: 0 <= k < |ps| ==> r[k] == s[ps[k]]
  {
    seq(|ps|, k requires 0 <= k < |ps| => s[ps[k]])
  }

  /** The first trace of each transaction is a root trace. */
  ghost predicate RootsFirst(vs: seq<TraceView>) {
    forall i :: 0 <= i < |vs| && FirstOfTransaction(vs, i) ==> vs[i].address == []
  }

  ghost predicate FirstOfTransaction(vs: seq<TraceView>, i: int)
    requires 0 <= i < |vs|
  {
    forall k :: 0 <= k < i ==> vs[k].hash != vs[i].hash
  }

  ghost predicate Survives(vs: seq<TraceView>, i: nat) {
    i < |vs| && MarkedError(vs, i).None?
  }

  ghost function SurvivorIn(vs: seq<TraceView>): nat -> bool {
    (i: nat) => Survives(vs, i)
  }

  /** The traces left after marking: those without an error, in order. */
  ghost function Survivors(vs: seq<TraceView>): seq<TraceView> {
    Pick(vs, Positions(|vs|, SurvivorIn(vs)))
  }

  ghost function Actions(vs: seq<TraceView>): seq<TraceView> {
    Filter(vs, (v: TraceView) => v.action)
  }

  /** What filtering yields, as a function of the traces. */
  ghost function Filtered(vs: seq<TraceView>): Result<seq<TraceView>> {
    if RootsFirst(Actions(vs)) then Ok(Survivors(Actions(vs)))
    else Err("First trace per tx should be a root trace")
  }

  /** What the code depends on: a reported error is a non-empty string. */
  ghost predicate ErrorsSayWhy(vs: seq<TraceView>) {
    forall i :: 0 <= i < |vs| && vs[i].error.Some? ==> Failed(vs[i].error)
  }

  lemma SegmentTransitive(vs: seq<TraceView>, i: int, j: int, k: int)
    requires SameSegment(vs, i, j) && SameSegment(vs, j, k)
    ensures SameSegment(vs, i, k) && SameSegment(vs, j, i)
  {
  }

  /** Without an error of its own, and called by no call that failed. */
  ghost predicate Clean(vs: seq<TraceView>, i: int) {
    0 <= i < |vs| && vs[i].error.None? && !exists j :: CallerFailed(vs, j, i)
  }

  lemma SurvivesIffClean(vs: seq<TraceView>, i: nat)
    requires DistinctAddresses(vs) && i < |vs|
    ensures Survives(vs, i) <==> Clean(vs, i)
  {
    MarkedIffCallerFailed(vs, i);
  }

  /** A clean call made, directly or not, by a call whose error is the empty string. */
  ghost predicate Orphan(vs: seq<TraceView>, j: int, i: int) {
    Clean(vs, i) && SameSegment(vs, j, i) && vs[j].address < vs[i].address && vs[j].error == Some("")
  }

  /** Whatever survives, everything it was called from survives. */
  ghost predicate CallersSurvive(vs: seq<TraceView>) {
    forall j: nat, i: nat :: Survives(vs, i) && SameSegment(vs, j, i) && vs[j].address < vs[i].address
        ==> Survives(vs, j)
  }

  /** Callers of survivors survive exactly when there is no clean call below an empty error. */
  lemma CallersSurviveIff(vs: seq<TraceView>)
    requires DistinctAddresses(vs)
    ensures CallersSurvive(vs) <==> !exists j, i :: Orphan(vs, j, i)
  {
    if j, i :| Orphan(vs, j, i) {
      SurvivesIffClean(vs, i);
      assert !Survives(vs, j);
    }
    forall j: nat, i: nat | Survives(vs, i) && SameSegment(vs, j, i) && vs[j].address < vs[i].address
        && !Survives(vs, j)
      ensures Orphan(vs, j, i)
    {
      SurvivesIffClean(vs, i);
      SurvivesIffClean(vs, j);
      if vs[j].error.Some? {
        assert !CallerFailed(vs, j, i);
      } else {
        var l :| CallerFailed(vs, l, j);
        SegmentTransitive(vs, l, j, i);
        assert CallerFailed(vs, l, i);
      }
    }
  }

  /** In particular they do when every error says why. */
  lemma SurvivorsKeepAncestors(vs: seq<TraceView>, j: nat, i: nat)
    requires ErrorsSayWhy(vs) && DistinctAddresses(vs)
    requires Survives(vs, i) && SameSegment(vs, j, i) && vs[j].address < vs[i].address
    ensures Survives(vs, j)
  {
    CallersSurviveIff(vs);
    assert forall k, l :: Orphan(vs, k, l) ==> !Failed(vs[k].error);
  }

  lemma {:induction false} LastBefore(vs: seq<TraceView>, k: nat, i: nat) returns (j: nat)
    requires k < i < |vs| && vs[k].hash == vs[i].hash
    ensures j < i && vs[j].hash == vs[i].hash && forall l :: j < l < i ==> vs[l].hash != vs[i].hash
    decreases i - k
  {
    if l :| k < l < i && vs[l].hash == vs[i].hash {
      j := LastBefore(vs, l, i);
    } else {
      j := k;
    }
  }

  /** The root trace that trace i hangs from. */
  lemma {:induction false} RootOf(vs: seq<TraceView>, i: nat) returns (root: nat)
    requires RootsFirst(vs) && i < |vs|
    ensures root <= i && SameSegment(vs, root, i) && vs[root].address == []
  {
    if vs[i].address == [] {
      root := i;
    } else {
      assert !FirstOfTransaction(vs, i);
      var k :| 0 <= k < i && vs[k].hash == vs[i].hash;
      var j := LastBefore(vs, k, i);
      assert SameSegment(vs, j, i);
      root := RootOf(vs, j);
      SegmentTransitive(vs, root, j, i);
    }
  }

  /** Each surviving segment keeps its root trace. */
  lemma SurvivorsKeepRoots(vs: seq<TraceView>, i: nat) returns (root: nat)
    requires RootsFirst(vs) && ErrorsSayWhy(vs) && DistinctAddresses(vs) && Survives(vs, i)
    ensures root <= i && SameSegment(vs, root, i) && vs[root].address == [] && Survives(vs, root)
  {
    root := RootOf(vs, i);
    if vs[i].address != [] {
      SurvivorsKeepAncestors(vs, root, i);
    }
  }

  lemma NothingLeftToDrop(vs: seq<TraceView>)
    requires forall i :: 0 <= i < |vs| ==> vs[i].error.None?
    ensures Survivors(vs) == vs
  {
    forall i: nat | i < |vs| ensures Survives(vs, i) {
      assert !HasFailedAncestor(vs, i);
    }
    AllPositions(|vs|, SurvivorIn(vs));
  }

  lemma {:induction false} AllPositions(n: nat, p: nat -> bool)
    requires forall i: nat :: i < n ==> p(i)
    ensures Positions(n, p) == seq(n, i => i)
  {
    if n > 0 {
      AllPositions(n - 1, p);
    }
  }

  lemma SurvivorsFacts(vs: seq<TraceView>, ps: seq<nat>)
    requires ps == Positions(|vs|, SurvivorIn(vs))
    ensures |Survivors(vs)| == |ps|
    ensures forall k :: 0 <= k < |ps| ==> ps[k] < |vs| && Survives(vs, ps[k]) && Survivors(vs)[k] == vs[ps[k]]
    ensures forall k, l :: 0 <= k < l < |ps| ==> ps[k] < ps[l]
    ensures forall i: nat :: Survives(vs, i) ==> i in ps
  {
    PositionsFacts(|vs|, SurvivorIn(vs), ps);
  }

  /** A transaction of which nothing survives before an orphan, whose root has an empty error. */
  ghost predicate StartsOrphaned(vs: seq<TraceView>, root: int, i: int) {
    && Orphan(vs, root, i) && vs[root].address == []
    && forall k :: 0 <= k < i && vs[k].hash == vs[i].hash ==> !Clean(vs, k)
  }

  lemma OrphanedStart(vs: seq<TraceView>, ps: seq<nat>, k: nat) returns (root: nat)
    requires RootsFirst(vs) && DistinctAddresses(vs) && ps == Positions(|vs|, SurvivorIn(vs)) && k < |ps|
    requires FirstOfTransaction(Survivors(vs), k) && Survivors(vs)[k].address != []
    ensures StartsOrphaned(vs, root, ps[k])
  {
    var i := ps[k];
    SurvivorsFacts(vs, ps);
    SurvivesIffClean(vs, i);
    forall j | 0 <= j < i && vs[j].hash == vs[i].hash ensures !Clean(vs, j) {
      SurvivesIffClean(vs, j);
      assert j !in ps[k..];
      assert forall m :: 0 <= m < k ==> Survivors(vs)[m].hash == vs[ps[m]].hash;
    }
    root := RootOf(vs, i);
    assert !CallerFailed(vs, root, i) && !Clean(vs, root);
  }

  /** What survives starts each transaction with a root trace, unless a transaction starts orphaned. */
  lemma SurvivorsStartWithRootsIff(vs: seq<TraceView>)
    requires RootsFirst(vs) && DistinctAddresses(vs)
    ensures RootsFirst(Survivors(vs)) <==> !exists root, i :: StartsOrphaned(vs, root, i)
  {
    var ss, ps := Survivors(vs), Positions(|vs|, SurvivorIn(vs));
    SurvivorsFacts(vs, ps);
    if k :| 0 <= k < |ss| && FirstOfTransaction(ss, k) && ss[k].address != [] {
      var root := OrphanedStart(vs, ps, k);
    }
    if root, i :| StartsOrphaned(vs, root, i) {
      SurvivesIffClean(vs, i);
      var k :| 0 <= k < |ps| && ps[k] == i;
      forall m | 0 <= m < k ensures ss[m].hash != ss[k].hash {
        SurvivesIffClean(vs, ps[m]);
      }
      assert FirstOfTransaction(ss, k) && ss[k].address != [];
    }
  }

  lemma SurvivorsAreActions(vs: seq<TraceView>)
    ensures Actions(Survivors(Actions(vs))) == Survivors(Actions(vs))
  {
    var a := Actions(vs);
    var ss := Survivors(a);
    SurvivorsFacts(a, Positions(|a|, SurvivorIn(a)));
    forall v | v in ss ensures v.action {
      var k :| 0 <= k < |ss| && ss[k] == v;
      assert v in a;
      FilterMember(vs, (v: TraceView) => v.action, v);
    }
    FilterAll(ss, (v: TraceView) => v.action);
  }

  /** Filtering again never drops anything; it fails exactly when a transaction starts orphaned. */
  lemma SecondPassFailsIff(vs: seq<TraceView>)
    requires Filtered(vs).Ok? && DistinctAddresses(Actions(vs))
    ensures var again := Filtered(Filtered(vs).value);
            && (again.Ok? ==> again == Filtered(vs))
            && (again.Err? <==> exists root, i :: StartsOrphaned(Actions(vs), root, i))
  {
    SurvivorsAreActions(vs);
    SurvivorsStartWithRootsIff(Actions(vs));
    var ss := Survivors(Actions(vs));
    SurvivorsFacts(Actions(vs), Positions(|Actions(vs)|, SurvivorIn(Actions(vs))));
    NothingLeftToDrop(ss);
  }

  /** When every error says why, a second pass neither fails nor changes anything. */
  lemma FilteringTwiceIsFilteringOnce(vs: seq<TraceView>)
    requires Filtered(vs).Ok? && ErrorsSayWhy(Actions(vs)) && DistinctAddresses(Actions(vs))
    ensures Filtered(Filtered(vs).value) == Filtered(vs)
  {
    SecondPassFailsIff(vs);
    assert forall root, i :: StartsOrphaned(Actions(vs), root, i) ==> !Failed(Actions(vs)[root].error);
  }

  /** An empty error on a root trace: the root is dropped, its child is not, and filtering again fails. */
  lemma EmptyErrorOrphans()
    ensures var vs := [TraceView(1, true, [], Some("")), TraceView(1, true, [0], None)];
            && DistinctAddresses(vs) && Filtered(vs) == Ok([vs[1]])
            && Filtered([vs[1]]).Err?
  {
    var vs := [TraceView(1, true, [], Some("")), TraceView(1, true, [0], None)];
    assert Actions(vs) == vs;
    forall j ensures !FailedAncestor(vs, j, 1) && !FailedAncestor(vs, j, 0) {
    }
    assert !Survives(vs, 0) && Survives(vs, 1);
    var p := SurvivorIn(vs);
    assert Positions(2, p) == Positions(1, p) + [1] && Positions(1, p) == Positions(0, p) + [];
    assert Survivors(vs) == [vs[1]];
    assert Actions([vs[1]]) == [vs[1]];
  }

  // ----- Group by group -----

  /** The positions of all traces of one transaction among the first n, in order. */
  ghost predicate IsGroupUpTo(vs: seq<TraceView>, n: nat, ps: seq<nat>, h: Hash)
    requires n <= |vs|
  {
    && (forall k :: 0 <= k < |ps| ==> ps[k] < n && vs[ps[k]].hash == h)
    && (forall k, l :: 0 <= k < l < |ps| ==> ps[k] < ps[l])
    && (forall i: nat :: i < n && vs[i].hash == h ==> i in ps)
  }

  ghost predicate IsGroup(vs: seq<TraceView>, ps: seq<nat>, h: Hash) {
    IsGroupUpTo(vs, |vs|, ps, h)
  }

  lemma GroupSegment(vs: seq<TraceView>, ps: seq<nat>, h: Hash, gs: seq<TraceView>, a: int, b: int)
    requires IsGroup(vs, ps, h) && gs == Pick(vs, ps) && 0 <= a < |ps| && 0 <= b < |ps|
    ensures SameSegment(gs, a, b) <==> SameSegment(vs, ps[a], ps[b])
  {
    if SameSegment(gs, a, b) {
      forall k | (ps[a] < k <= ps[b] || ps[b] < k <= ps[a]) && vs[k].hash == h ensures vs[k].address != [] {
        var m :| 0 <= m < |ps| && ps[m] == k;
        assert a < m <= b || b < m <= a;
        assert gs[m].address != [];
      }
    }
    if SameSegment(vs, ps[a], ps[b]) {
      forall m | (a < m <= b || b < m <= a) ensures gs[m].address != [] {
        assert vs[ps[m]].hash == h;
      }
    }
  }

  lemma GroupShadow(vs: seq<TraceView>, ps: seq<nat>, h: Hash, gs: seq<TraceView>, a: int)
    requires IsGroup(vs, ps, h) && gs == Pick(vs, ps) && 0 <= a < |ps|
    ensures Shadowed(gs, a) <==> Shadowed(vs, ps[a])
  {
    if Shadowed(gs, a) {
      var b :| a < b < |gs| && SameSegment(gs, a, b) && gs[b].address == gs[a].address;
      GroupSegment(vs, ps, h, gs, a, b);
    }
    if Shadowed(vs, ps[a]) {
      var j :| ps[a] < j < |vs| && SameSegment(vs, ps[a], j) && vs[j].address == vs[ps[a]].address;
      var b :| 0 <= b < |ps| && ps[b] == j;
      GroupSegment(vs, ps, h, gs, a, b);
    }
  }

  /** Marking a transaction on its own marks what marking the whole list marks. */
  lemma GroupAgrees(vs: seq<TraceView>, ps: seq<nat>, h: Hash, gs: seq<TraceView>, a: int)
    requires IsGroup(vs, ps, h) && gs == Pick(vs, ps) && 0 <= a < |ps|
    ensures MarkedError(gs, a) == MarkedError(vs, ps[a])
  {
    GroupShadow(vs, ps, h, gs, a);
    if HasFailedAncestor(gs, a) {
      var b :| FailedAncestor(gs, b, a);
      GroupSegment(vs, ps, h, gs, b, a);
      GroupShadow(vs, ps, h, gs, b);
      assert FailedAncestor(vs, ps[b], ps[a]);
    }
    if HasFailedAncestor(vs, ps[a]) {
      var j :| FailedAncestor(vs, j, ps[a]);
      var b :| 0 <= b < |ps| && ps[b] == j;
      GroupSegment(vs, ps, h, gs, b, a);
      GroupShadow(vs, ps, h, gs, b);
      assert FailedAncestor(gs, b, a);
    }
  }

  /** What grouping has collected after n traces. */
  ghost predicate Grouped(vs: seq<TraceView>, n: nat, idx: map<Hash, seq<nat>>)
    requires n <= |vs|
  {
    && (forall j :: 0 <= j < n ==> vs[j].hash in idx)
    && (forall h :: h in idx ==> IsGroupUpTo(vs, n, idx[h], h) && idx[h] != [])
  }

  lemma GroupStep(vs: seq<TraceView>, n: nat, ps: seq<nat>, h: Hash)
    requires n < |vs| && IsGroupUpTo(vs, n, ps, h)
    ensures IsGroupUpTo(vs, n + 1, if vs[n].hash == h then ps + [n] else ps, h)
  {
    var qs := ps + [n];
    assert qs[|ps|] == n && forall k :: 0 <= k < |ps| ==> qs[k] == ps[k];
    forall i: nat | i < n + 1 && vs[i].hash == h && i in ps ensures i in qs {
      var k :| 0 <= k < |ps| && ps[k] == i;
      assert qs[k] == i;
    }
  }

  ghost function Join<T>(groups: map<Hash, seq<T>>, h: Hash, x: T): map<Hash, seq<T>> {
    groups[h := (if h in groups then groups[h] else []) + [x]]
  }

  lemma GroupedStep(vs: seq<TraceView>, n: nat, idx: map<Hash, seq<nat>>)
    requires n < |vs| && Grouped(vs, n, idx)
    ensures Grouped(vs, n + 1, Join(idx, vs[n].hash, n))
  {
    forall g | g in Join(idx, vs[n].hash, n)
      ensures IsGroupUpTo(vs, n + 1, Join(idx, vs[n].hash, n)[g], g)
    {
      GroupStep(vs, n, if g in idx then idx[g] else [], g);
    }
  }

  lemma PickSnoc<T>(s: seq<T>, ps: seq<nat>, i: nat)
    requires i < |s| && forall k :: 0 <= k < |ps| ==> ps[k] < |s|
    ensures Pick(s, ps + [i]) == Pick(s, ps) + [s[i]]
  {
  }

  ghost predicate PicksOf<T>(s: seq<T>, txs: map<Hash, seq<T>>, idx: map<Hash, seq<nat>>) {
    && txs.Keys == idx.Keys
    && forall h :: h in txs ==> (forall k :: 0 <= k < |idx[h]| ==> idx[h][k] < |s|) && txs[h] == Pick(s, idx[h])
  }

  lemma PicksStep<T>(s: seq<T>, txs: map<Hash, seq<T>>, idx: map<Hash, seq<nat>>, h: Hash, i: nat)
    requires i < |s| && PicksOf(s, txs, idx)
    ensures PicksOf(s, Join(txs, h, s[i]), Join(idx, h, i))
  {
    PickSnoc(s, if h in idx then idx[h] else [], i);
  }

  /** The first n traces are grouped, by position and as objects. */
  ghost predicate GroupedTraces(traces: seq<Trace>, vs: seq<TraceView>, n: nat, txs: map<Hash, seq<Trace>>,
                                idx: map<Hash, seq<nat>>)
    requires n <= |vs|
  {
    Grouped(vs, n, idx) && PicksOf(traces, txs, idx)
  }

  lemma GroupedTracesStep(traces: seq<Trace>, vs: seq<TraceView>, n: nat, txs: map<Hash, seq<Trace>>,
                          idx: map<Hash, seq<nat>>)
    requires n < |vs| == |traces| && GroupedTraces(traces, vs, n, txs, idx)
    ensures GroupedTraces(traces, vs, n + 1, Join(txs, vs[n].hash, traces[n]), Join(idx, vs[n].hash, n))
  {
    GroupedStep(vs, n, idx);
    PicksStep(traces, txs, idx, vs[n].hash, n);
  }

  /** The traces of each transaction. */
  method GroupBy(traces: seq<Trace>) returns (txs: map<Hash, seq<Trace>>, ghost idx: map<Hash, seq<nat>>)
    ensures Grouped(Views(traces), |traces|, idx) && PicksOf(traces, txs, idx)
  {
    txs, idx := map[], map[];
    ghost var vs := Views(traces);
    for i := 0 to |traces|
      invariant GroupedTraces(traces, vs, i, txs, idx)
    {
      var h := traces[i].transactionHash;
      GroupedTracesStep(traces, vs, i, txs, idx);
      txs := txs[h := (if h in txs then txs[h] else []) + [traces[i]]];
      idx := Join(idx, h, i);
    }
  }

  ghost function Errors(ts: seq<Trace>): (es: seq<Option<string>>)
    reads ts
    ensures |es| == |ts| && forall i :: 0 <= i < |ts| ==> es[i] == ts[i].error
  {
    seq(|ts|, i requires 0 <= i < |ts| reads ts => ts[i].error)
  }

  /** The errors when the given transactions are still to be marked. */
  ghost function ErrorsWith(vs: seq<TraceView>, pending: set<Hash>): (es: seq<Option<string>>)
    ensures |es| == |vs|
  {
    seq(|vs|, i requires 0 <= i < |vs| => if vs[i].hash in pending then vs[i].error else MarkedError(vs, i))
  }

  ghost predicate SameButErrors(ts: seq<Trace>, vs: seq<TraceView>) {
    |vs| == |ts| && forall i :: 0 <= i < |ts| ==>
      vs[i] == TraceView(ts[i].transactionHash, ts[i].action, ts[i].traceAddress, vs[i].error)
  }

  /** The groups already marked all start with a root trace. */
  ghost predicate RootedBut(vs: seq<TraceView>, idx: map<Hash, seq<nat>>, pending: set<Hash>)
    requires Grouped(vs, |vs|, idx)
  {
    forall h :: h in idx && h !in pending ==> vs[idx[h][0]].address == []
  }

  lemma RootedStep(vs: seq<TraceView>, idx: map<Hash, seq<nat>>, pending: set<Hash>, h: Hash)
    requires Grouped(vs, |vs|, idx) && h in idx && RootedBut(vs, idx, pending)
    ensures vs[idx[h][0]].address == [] ==> RootedBut(vs, idx, pending - {h})
    ensures vs[idx[h][0]].address != [] ==> !RootsFirst(vs)
  {
    RootsFirstByGroup(vs, idx);
  }

  /** Mark one transaction; the traces of the others are not touched. */
  method MarkTransaction(txTraces: seq<Trace>, ghost traces: seq<Trace>, ghost vs: seq<TraceView>,
                         ghost ps: seq<nat>, ghost h: Hash, ghost pending: set<Hash>)
    returns (r: Result<()>)
    requires Distinct(traces) && |vs| == |traces| && IsGroup(vs, ps, h) && ps != [] && txTraces == Pick(traces, ps)
    requires SameButErrors(traces, vs)
    requires h in pending && Errors(traces) == ErrorsWith(vs, pending)
    modifies traces
    ensures r.Ok? <==> vs[ps[0]].address == []
    ensures r.Ok? ==> Errors(traces) == ErrorsWith(vs, pending - {h})
  {
    ghost var gs := Views(txTraces);
    assert gs == Pick(vs, ps) by {
      forall k | 0 <= k < |ps| ensures gs[k] == vs[ps[k]] {
        assert Errors(traces)[ps[k]] == ErrorsWith(vs, pending)[ps[k]];
      }
    }
    ghost var visited;
    r, visited := MarkChildrenWithFailedParents(txTraces);
    if r.Ok? {
      forall i | 0 <= i < |traces| ensures traces[i].error == ErrorsWith(vs, pending - {h})[i] {
        OtherTransaction(traces, vs, ps, h, i);
        if vs[i].hash == h {
          var k :| 0 <= k < |ps| && ps[k] == i;
          GroupAgrees(vs, ps, h, gs, k);
          assert txTraces[k] == traces[i];
        } else {
          assert old(Errors(traces))[i] == ErrorsWith(vs, pending)[i];
        }
      }
    }
  }

  lemma OtherTransaction(traces: seq<Trace>, vs: seq<TraceView>, ps: seq<nat>, h: Hash, i: nat)
    requires Distinct(traces) && |vs| == |traces| && IsGroup(vs, ps, h) && i < |traces|
    ensures traces[i] in Pick(traces, ps) <==> vs[i].hash == h
  {
    if traces[i] in Pick(traces, ps) {
      var k :| 0 <= k < |ps| && Pick(traces, ps)[k] == traces[i];
      assert ps[k] == i;
    }
    if vs[i].hash == h {
      var k :| 0 <= k < |ps| && ps[k] == i;
      assert Pick(traces, ps)[k] == traces[i];
    }
  }

  /** The group whose first trace is not a root trace shows the whole list to be unfit, and only such a group does. */
  lemma RootsFirstByGroup(vs: seq<TraceView>, idx: map<Hash, seq<nat>>)
    requires Grouped(vs, |vs|, idx)
    ensures RootsFirst(vs) <==> forall h :: h in idx ==> vs[idx[h][0]].address == []
  {
    forall h | h in idx ensures FirstOfTransaction(vs, idx[h][0]) {
      forall k | 0 <= k < idx[h][0] ensures vs[k].hash != h {
        assert k !in idx[h];
      }
    }
    forall i | 0 <= i < |vs| && FirstOfTransaction(vs, i) ensures i == idx[vs[i].hash][0] {
      var m :| 0 <= m < |idx[vs[i].hash]| && idx[vs[i].hash][m] == i;
    }
  }

  /** Mark in place the failed calls of every transaction, the transactions in any order. */
  method SetErrors(traces: seq<Trace>) returns (r: Result<()>)
    requires Distinct(traces)
    modifies traces
    ensures r.Ok? <==> RootsFirst(old(Views(traces)))
    ensures r.Ok? ==> forall i :: 0 <= i < |traces| ==> traces[i].error == MarkedError(old(Views(traces)), i)
  {
    ghost var vs := Views(traces);
    var txs;
    ghost var idx;
    txs, idx := GroupBy(traces);
    var pending := txs.Keys;
    AllPending(vs, pending, idx);
    while pending != {}
      invariant pending <= idx.Keys && RootedBut(vs, idx, pending)
      invariant Errors(traces) == ErrorsWith(vs, pending)
    {
      var h :| h in pending;
      RootedStep(vs, idx, pending, h);
      r := MarkTransaction(txs[h], traces, vs, idx[h], h, pending);
      if r.Err? {
        return;
      }
      pending := pending - {h};
    }
    NonePending(vs, idx);
    r := Ok(());
  }

  lemma AllPending(vs: seq<TraceView>, pending: set<Hash>, idx: map<Hash, seq<nat>>)
    requires Grouped(vs, |vs|, idx) && pending == idx.Keys
    ensures RootedBut(vs, idx, pending)
    ensures forall i :: 0 <= i < |vs| ==> ErrorsWith(vs, pending)[i] == vs[i].error
  {
  }

  lemma NonePending(vs: seq<TraceView>, idx: map<Hash, seq<nat>>)
    requires Grouped(vs, |vs|, idx) && RootedBut(vs, idx, {})
    ensures RootsFirst(vs)
    ensures forall i :: 0 <= i < |vs| ==> ErrorsWith(vs, {})[i] == MarkedError(vs, i)
  {
    RootsFirstByGroup(vs, idx);
  }

  /** The traces with something in their action, in order. */
  function FilterNonActions(traces: seq<Trace>): seq<Trace> {
    Filter(traces, (t: Trace) => t.action)
  }

  lemma {:induction false} ActionsOf(traces: seq<Trace>)
    ensures Views(FilterNonActions(traces)) == Actions(Views(traces))
  {
    if traces != [] {
      ActionsOf(traces[1..]);
      assert Views(traces)[1..] == Views(traces[1..]);
    }
  }

  lemma {:induction false} ActionsDistinct(traces: seq<Trace>)
    requires Distinct(traces)
    ensures Distinct(FilterNonActions(traces))
    ensures forall t :: t in FilterNonActions(traces) ==> t in traces
  {
    if traces != [] {
      ActionsDistinct(traces[1..]);
      assert traces[0] !in FilterNonActions(traces[1..]);
    }
  }

  lemma SurvivorsOf(traces: seq<Trace>, result: seq<Trace>, vs: seq<TraceView>)
    requires SameButErrors(traces, vs) && forall i :: 0 <= i < |vs| ==> traces[i].error == MarkedError(vs, i)
    requires result == Pick(traces, Positions(|traces|, SurvivorIn(vs)))
    ensures Views(result) == Survivors(vs)
  {
    SurvivorsFacts(vs, Positions(|vs|, SurvivorIn(vs)));
  }

  /** The marked traces without an error, in order. */
  method DropFailed(traces: seq<Trace>, ghost vs: seq<TraceView>) returns (result: seq<Trace>)
    requires SameButErrors(traces, vs) && forall i :: 0 <= i < |vs| ==> traces[i].error == MarkedError(vs, i)
    ensures Views(result) == Survivors(vs)
    ensures forall t :: t in result ==> t in traces
  {
    result := [];
    for i := 0 to |traces|
      invariant result == Pick(traces, Positions(i, SurvivorIn(vs)))
    {
      PickSnoc(traces, Positions(i, SurvivorIn(vs)), i);
      assert Survives(vs, i) <==> traces[i].error.None?;
      if traces[i].error.None? {
        result := result + [traces[i]];
      }
    }
    SurvivorsOf(traces, result, vs);
  }

  /** Drops, in one pass over each transaction, the traces that failed or were called from a failed one. */
  method FilterErrors(traces: seq<Trace>) returns (r: Result<seq<Trace>>)
    requires Distinct(traces)
    modifies traces
    ensures r.Ok? <==> Filtered(old(Views(traces))).Ok?
    ensures r.Ok? ==> Views(r.value) == Filtered(old(Views(traces))).value && forall t :: t in r.value ==> t in traces
  {
    var kept := FilterNonActions(traces);
    ActionsOf(traces);
    ActionsDistinct(traces);
    ghost var vs := Views(kept);
    assert forall i :: 0 <= i < |kept| ==> kept[i] in kept && kept[i] in traces;
    var outcome := SetErrors(kept);
    if outcome.Err? {
      return Err(outcome.error);
    }
    var result := DropFailed(kept, vs);
    r := Ok(result);
  }
}

/**
 * Failed calls in Ethereum traces. The rule is quadratic: a trace without an error of its own is
 * marked when a trace whose address is a strict prefix of its own, under the same root trace,
 * failed. The trie does it in one pass.
 */
module TraceRules {
  import opened Common

  const PARENT_ERROR := "parent_error"

  type Address = seq<nat>

  /** A transaction hash; the code only compares hashes. */
  type Hash = nat

  datatype TraceView = TraceView(hash: Hash, action: bool, address: Address, error: Option<string>)

  /** The truthiness of an optional string: the empty string counts as no failure. */
  predicate Failed(error: Option<string>) {
    error.Some? && error.value != ""
  }

  /** No root trace of i's transaction stands between i and j: both hang from the same root trace. */
  ghost predicate SameSegment(ts: seq<TraceView>, i: int, j: int) {
    && 0 <= i < |ts| && 0 <= j < |ts|
    && ts[i].hash == ts[j].hash
    && forall k :: (i < k <= j || j < k <= i) && ts[k].hash == ts[i].hash ==> ts[k].address != []
  }

  /** A later trace takes i's place in the trie, so the trie never sees i. */
  ghost predicate Shadowed(ts: seq<TraceView>, i: int) {
    exists j :: i < j < |ts| && SameSegment(ts, i, j) && ts[j].address == ts[i].address
  }

  ghost predicate FailedAncestor(ts: seq<TraceView>, j: int, i: int) {
    SameSegment(ts, j, i) && ts[j].address < ts[i].address && Failed(ts[j].error) && !Shadowed(ts, j)
  }

  ghost predicate HasFailedAncestor(ts: seq<TraceView>, i: int) {
    exists j :: FailedAncestor(ts, j, i)
  }

  ghost predicate Marked(ts: seq<TraceView>, i: int)
    requires 0 <= i < |ts|
  {
    ts[i].error.None? && !Shadowed(ts, i) && HasFailedAncestor(ts, i)
  }

  /** The error of trace i after marking. */
  ghost function MarkedError(ts: seq<TraceView>, i: int): Option<string>
    requires 0 <= i < |ts|
  {
    if Marked(ts, i) then Some(PARENT_ERROR) else ts[i].error
  }

  /** Addresses are distinct under each root trace. */
  ghost predicate DistinctAddresses(ts: seq<TraceView>) {
    forall i, j :: 0 <= i < j < |ts| && SameSegment(ts, i, j) ==> ts[i].address != ts[j].address
  }

  /** A call that j made, directly or not, and j failed. */
  ghost predicate CallerFailed(ts: seq<TraceView>, j: int, i: int) {
    SameSegment(ts, j, i) && ts[j].address < ts[i].address && Failed(ts[j].error)
  }

  /** The plain rule: no error of its own, and a failed caller. */
  ghost predicate Plain(ts: seq<TraceView>, i: int) {
    0 <= i < |ts| && ts[i].error.None? && exists j :: CallerFailed(ts, j, i)
  }

  /** A later trace takes the place of the trace itself, or of each of its failed callers. */
  ghost predicate Hidden(ts: seq<TraceView>, i: int) {
    Plain(ts, i) && (Shadowed(ts, i) || forall j :: CallerFailed(ts, j, i) ==> Shadowed(ts, j))
  }

  /** A trace is marked exactly when the plain rule marks it and no later trace hides that. */
  lemma MarkedIffPlain(ts: seq<TraceView>, i: int)
    requires 0 <= i < |ts|
    ensures Marked(ts, i) <==> Plain(ts, i) && !Hidden(ts, i)
  {
    if j :| FailedAncestor(ts, j, i) {
      assert CallerFailed(ts, j, i);
    }
    if j :| CallerFailed(ts, j, i) && !Shadowed(ts, j) {
      assert FailedAncestor(ts, j, i);
    }
  }

  /** So the marks of a list are those of the plain rule exactly when nothing is hidden. */
  lemma AllPlainIffNoneHidden(ts: seq<TraceView>)
    ensures (forall i :: 0 <= i < |ts| ==> (Marked(ts, i) <==> Plain(ts, i))) <==> !exists i :: Hidden(ts, i)
  {
    forall i | 0 <= i < |ts| ensures Marked(ts, i) <==> Plain(ts, i) && !Hidden(ts, i) {
      MarkedIffPlain(ts, i);
    }
    if i :| Hidden(ts, i) {
      assert Plain(ts, i) && !Marked(ts, i);
    }
  }

  /** In particular nothing is hidden when addresses are distinct. */
  lemma MarkedIffCallerFailed(ts: seq<TraceView>, i: int)
    requires 0 <= i < |ts| && DistinctAddresses(ts)
    ensures Marked(ts, i) <==> ts[i].error.None? && exists j :: CallerFailed(ts, j, i)
  {
    forall j ensures !Shadowed(ts, j) {
    }
    MarkedIffPlain(ts, i);
  }

  /** A repeated address hides a failure: the later trace takes its place, and the call below is not marked. */
  lemma RepeatedAddressHidesFailure()
    ensures var ts := [TraceView(1, true, [], None), TraceView(1, true, [0], Some("Reverted")),
                       TraceView(1, true, [0], None), TraceView(1, true, [0, 0], None)];
            Hidden(ts, 3) && CallerFailed(ts, 1, 3) && !Marked(ts, 3)
  {
    var ts := [TraceView(1, true, [], None), TraceView(1, true, [0], Some("Reverted")),
               TraceView(1, true, [0], None), TraceView(1, true, [0, 0], None)];
    assert "Reverted" != "" by { assert |"Reverted"| == 8; }
    assert [0] < [0, 0];
    assert SameSegment(ts, 1, 3) && CallerFailed(ts, 1, 3);
    assert SameSegment(ts, 1, 2) && Shadowed(ts, 1);
    forall j | CallerFailed(ts, j, 3) ensures j == 1 {
    }
    MarkedIffPlain(ts, 3);
  }
}

/** The heap-allocated trie of eth/lib/custom_trie.ts. */
module TraceTrie {
  import opened Common
  import opened TraceRules

  class Trace {
    const transactionHash: Hash
    const action: bool
    const traceAddress: Address
    var error: Option<string>

    constructor (hash: Hash, action: bool, address: Address, error: Option<string>)
      ensures View() == TraceView(hash, action, address, error)
    {
      this.transactionHash, this.action, this.traceAddress, this.error := hash, action, address, error;
    }

    ghost function View(): TraceView
      reads this
    {
      TraceView(transactionHash, action, traceAddress, error)
    }
  }

  class TrieNode {
    var children: map<nat, TrieNode>
    var traceObject: Trace?
    ghost const site: Site
    ghost const parent: TrieNode?

    constructor (ghost site: Site, ghost parent: TrieNode?)
      ensures children == map[] && traceObject == null && this.site == site && this.parent == parent
    {
      this.children, this.traceObject := map[], null;
      this.site, this.parent := site, parent;
    }
  }

  ghost function Views(ts: seq<Trace>): (vs: seq<TraceView>)
    reads ts
    ensures |vs| == |ts| && forall i :: 0 <= i < |ts| ==> vs[i] == ts[i].View()
  {
    seq(|ts|, i requires 0 <= i < |ts| reads ts => ts[i].View())
  }

  ghost predicate Distinct(ts: seq<Trace>) {
    forall i, j :: 0 <= i < j < |ts| ==> ts[i] != ts[j]
  }

  /** Where a node stands: the number of its root trace, and the letters from that root to the node. */
  datatype Site = Site(seg: nat, path: Address)

  function Child(x: Site, letter: nat): Site {
    Site(x.seg, x.path + [letter])
  }

  function Prefix(x: Site, n: nat): Site
    requires n <= |x.path|
  {
    Site(x.seg, x.path[..n])
  }

  predicate Below(x: Site, y: Site) {
    x.seg == y.seg && |x.path| <= |y.path| && y.path[..|x.path|] == x.path
  }

  ghost predicate PrefixClosed(sites: set<Site>) {
    forall x, n: nat :: x in sites && n <= |x.path| ==> Prefix(x, n) in sites
  }

  ghost function Under(sites: set<Site>, x: Site): set<Site> {
    set y | y in sites && Below(x, y)
  }

  /** Some node from `top` down to just above `y` holds a failed trace. */
  ghost predicate FailedAbove(errs: map<Site, Option<string>>, top: Site, y: Site) {
    exists n: nat :: |top.path| <= n < |y.path| && Prefix(y, n) in errs && Failed(errs[Prefix(y, n)])
  }

  function NewError(error: Option<string>, parentFailed: bool): Option<string> {
    if parentFailed && error.None? then Some(PARENT_ERROR) else error
  }

  lemma FailedAboveChild(errs: map<Site, Option<string>>, x: Site, y: Site, letter: nat)
    requires Below(Child(x, letter), y)
    ensures FailedAbove(errs, x, y) <==> (x in errs && Failed(errs[x])) || FailedAbove(errs, Child(x, letter), y)
  {
    assert Prefix(y, |x.path|) == x by {
      assert y.path[..|x.path|] == y.path[..|x.path| + 1][..|x.path|];
    }
  }

  lemma BelowChild(x: Site, y: Site)
    requires Below(x, y) && x != y
    ensures |y.path| > |x.path| && Below(Child(x, y.path[|x.path|]), y)
    ensures Prefix(y, |x.path| + 1) == Child(x, y.path[|x.path|])
  {
    assert y.path == y.path[..|x.path|] + y.path[|x.path|..];
    assert y.path[..|x.path| + 1] == x.path + [y.path[|x.path|]];
  }

  lemma BelowOneChild(x: Site, y: Site, letter: nat)
    ensures Below(Child(x, letter), y) <==>
            Below(x, y) && |y.path| > |x.path| && y.path[|x.path|] == letter
  {
    if Below(Child(x, letter), y) {
      assert y.path[..|x.path|] == y.path[..|x.path| + 1][..|x.path|];
      assert y.path[..|x.path| + 1][|x.path|] == letter;
    } else if Below(x, y) && |y.path| > |x.path| && y.path[|x.path|] == letter {
      BelowChild(x, y);
    }
  }

  /** Marking everything at and below x. */
  ghost function MarkUnder(errs: map<Site, Option<string>>, x: Site, parentFailed: bool)
    : map<Site, Option<string>>
  {
    map y | y in errs ::
      if Below(x, y) then NewError(errs[y], parentFailed || FailedAbove(errs, x, y)) else errs[y]
  }

  /** The same, with the children whose letters are pending not yet visited. */
  ghost function MarkPartly(errs: map<Site, Option<string>>, x: Site, parentFailed: bool, pending: set<nat>)
    : map<Site, Option<string>>
  {
    map y | y in errs ::
      if Below(x, y) && !(|y.path| > |x.path| && y.path[|x.path|] in pending)
      then NewError(errs[y], parentFailed || FailedAbove(errs, x, y)) else errs[y]
  }

  lemma MarkOneChild(errs: map<Site, Option<string>>, x: Site, parentFailed: bool, pending: set<nat>, letter: nat)
    requires letter in pending
    ensures MarkUnder(MarkPartly(errs, x, parentFailed, pending), Child(x, letter),
                      parentFailed || (x in errs && Failed(errs[x])))
         == MarkPartly(errs, x, parentFailed, pending - {letter})
  {
    var now := MarkPartly(errs, x, parentFailed, pending);
    var child := Child(x, letter);
    var failed := parentFailed || (x in errs && Failed(errs[x]));
    forall y | y in errs
      ensures MarkUnder(now, child, failed)[y] == MarkPartly(errs, x, parentFailed, pending - {letter})[y]
    {
      BelowOneChild(x, y, letter);
      if Below(child, y) {
        FailedAboveChild(errs, x, y, letter);
        SameAbove(errs, now, x, child, y, pending);
      }
    }
  }

  lemma SameAbove(errs: map<Site, Option<string>>, now: map<Site, Option<string>>, x: Site, child: Site, y: Site,
                  pending: set<nat>)
    requires now.Keys == errs.Keys
    requires forall z :: z in errs && Below(x, z) && |z.path| > |x.path| && z.path[|x.path|] in pending ==>
               now[z] == errs[z]
    requires |child.path| == |x.path| + 1 && Below(x, child) && child.path[|x.path|] in pending && Below(child, y)
    ensures FailedAbove(now, child, y) <==> FailedAbove(errs, child, y)
  {
    forall n: nat | |child.path| <= n < |y.path|
      ensures var z := Prefix(y, n); z in errs ==> now[z] == errs[z]
    {
      var z := Prefix(y, n);
      assert z.path[..|child.path|] == y.path[..|child.path|];
      assert z.path[..|x.path|] == child.path[..|x.path|];
      assert z.path[|x.path|] == z.path[..|child.path|][|x.path|];
    }
  }

  lemma NonePending(sites: set<Site>, errs: map<Site, Option<string>>, x: Site, parentFailed: bool)
    ensures MarkPartly(errs, x, parentFailed, {}) == MarkUnder(errs, x, parentFailed)
    ensures Visited(sites, x, {}) == Under(sites, x)
  {
  }

  ghost function Visited(sites: set<Site>, x: Site, pending: set<nat>): set<Site> {
    set y | y in sites && Below(x, y) && !(|y.path| > |x.path| && y.path[|x.path|] in pending)
  }

  lemma VisitOneChild(sites: set<Site>, x: Site, pending: set<nat>, letter: nat)
    requires letter in pending && x in sites
    ensures |Visited(sites, x, pending - {letter})| == |Visited(sites, x, pending)| + |Under(sites, Child(x, letter))|
    ensures Under(sites, Child(x, letter)) < Under(sites, x)
  {
    forall y ensures Below(Child(x, letter), y) <==> Below(x, y) && |y.path| > |x.path| && y.path[|x.path|] == letter {
      BelowOneChild(x, y, letter);
    }
    assert Visited(sites, x, pending - {letter}) == Visited(sites, x, pending) + Under(sites, Child(x, letter));
    assert Visited(sites, x, pending) !! Under(sites, Child(x, letter));
    assert x in Under(sites, x) && x !in Under(sites, Child(x, letter));
  }

  /** Before any child is visited, only the node itself is marked and counted. */
  lemma FirstPending(sites: set<Site>, letters: set<nat>, errs: map<Site, Option<string>>, x: Site,
                     parentFailed: bool)
    requires x in sites && errs.Keys <= sites && PrefixClosed(sites)
    requires forall letter :: Child(x, letter) in sites ==> letter in letters
    ensures MarkPartly(errs, x, parentFailed, letters) ==
            if x in errs then errs[x := NewError(errs[x], parentFailed)] else errs
    ensures Visited(sites, x, letters) == {x}
  {
    forall y | y in sites && Below(x, y) && y != x
      ensures |y.path| > |x.path| && y.path[|x.path|] in letters
    {
      BelowChild(x, y);
      assert Prefix(y, |x.path| + 1) in sites;
    }
  }

  /**
   * The nodes form a forest: each stands at its own site, and each but a root is the child its last
   * letter names of the node one letter shorter.
   */
  ghost predicate Forest(nodes: set<TrieNode>)
    reads nodes`children
  {
    && (forall m, n :: m in nodes && n in nodes && m.site == n.site ==> m == n)
    && (forall n, letter :: n in nodes && letter in n.children ==>
          n.children[letter] in nodes && n.children[letter].site == Child(n.site, letter))
    && (forall n :: n in nodes && n.site.path != [] ==>
          n.parent != null && n.parent in nodes && HasChild(n.parent, n))
  }

  ghost predicate HasChild(m: TrieNode, n: TrieNode)
    requires n.site.path != []
    reads m`children
  {
    var last := |n.site.path| - 1;
    n.site == Child(m.site, n.site.path[last]) && n.site.path[last] in m.children
  }

  /** No two nodes hold the same trace, and all the traces held are among the given ones. */
  ghost predicate Holds(nodes: set<TrieNode>, traces: set<Trace>)
    reads nodes`traceObject
  {
    && (forall n :: n in nodes && n.traceObject != null ==> n.traceObject in traces)
    && (forall m, n :: m in nodes && n in nodes && m.traceObject == n.traceObject != null ==> m == n)
  }

  ghost function Sites(nodes: set<TrieNode>): set<Site> {
    set n | n in nodes :: n.site
  }

  ghost function Errs(nodes: set<TrieNode>, traces: set<Trace>): map<Site, Option<string>>
    requires Forest(nodes) && Holds(nodes, traces)
    reads nodes, traces
  {
    map n | n in nodes && n.traceObject != null :: n.site := n.traceObject.error
  }

  /** The sites of a forest are closed under prefixes, and the letters of a node are those of its children. */
  lemma ForestLetters(nodes: set<TrieNode>, node: TrieNode)
    requires node in nodes && Forest(nodes)
    ensures PrefixClosed(Sites(nodes)) && node.site in Sites(nodes)
    ensures forall letter :: Child(node.site, letter) in Sites(nodes) ==> letter in node.children
  {
    forall y, n: nat | y in Sites(nodes) && n <= |y.path| ensures Prefix(y, n) in Sites(nodes) {
      var c :| c in nodes && c.site == y;
      ForestPrefix(nodes, c, n);
    }
    forall letter: nat | Child(node.site, letter) in Sites(nodes) ensures letter in node.children {
      var c :| c in nodes && c.site == Child(node.site, letter);
      assert c.parent in nodes && c.parent.site == node.site by {
        assert c.site.path[..|c.site.path| - 1] == node.site.path == c.parent.site.path;
      }
    }
  }

  lemma PrefixOfChild(x: Site, letter: nat, n: nat)
    requires n <= |x.path|
    ensures Prefix(Child(x, letter), n) == Prefix(x, n)
  {
  }

  lemma {:induction false} ForestPrefix(nodes: set<TrieNode>, c: TrieNode, n: nat)
    requires Forest(nodes) && c in nodes && n <= |c.site.path|
    ensures Prefix(c.site, n) in Sites(nodes)
    decreases |c.site.path|
  {
    if n == |c.site.path| {
      assert Prefix(c.site, n) == c.site;
    } else {
      assert HasChild(c.parent, c);
      ForestPrefix(nodes, c.parent, n);
      PrefixOfChild(c.parent.site, c.site.path[|c.site.path| - 1], n);
    }
  }

  /** Mark one node, and tell whether its children fail with it. */
  method MarkNode(node: TrieNode, isParentFailed: bool, ghost nodes: set<TrieNode>, ghost traces: set<Trace>)
    returns (shouldFailChildren: bool)
    requires node in nodes && Forest(nodes) && Holds(nodes, traces)
    modifies traces
    ensures Forest(nodes) && Holds(nodes, traces)
    ensures var errs, x := old(Errs(nodes, traces)), node.site;
            && Errs(nodes, traces) == (if x in errs then errs[x := NewError(errs[x], isParentFailed)] else errs)
            && shouldFailChildren == (isParentFailed || (x in errs && Failed(errs[x])))
  {
    ghost var errs, x := Errs(nodes, traces), node.site;
    HeldAt(nodes, traces, node);
    if isParentFailed && node.traceObject != null && node.traceObject.error.None? {
      SetError(node, nodes, traces);
      return true;
    }
    shouldFailChildren := isParentFailed || (node.traceObject != null && Failed(node.traceObject.error));
    assert x in errs ==> errs[x := errs[x]] == errs;
  }

  method SetError(node: TrieNode, ghost nodes: set<TrieNode>, ghost traces: set<Trace>)
    requires node in nodes && Forest(nodes) && Holds(nodes, traces) && node.traceObject != null
    modifies node.traceObject
    ensures Forest(nodes) && Holds(nodes, traces)
    ensures Errs(nodes, traces) == old(Errs(nodes, traces))[node.site := Some(PARENT_ERROR)]
  {
    ghost var errs := Errs(nodes, traces);
    node.traceObject.error := Some(PARENT_ERROR);
    ErrsAre(nodes, traces, errs[node.site := Some(PARENT_ERROR)]);
  }

  ghost function HeldSites(nodes: set<TrieNode>): set<Site>
    reads nodes`traceObject
  {
    set n | n in nodes && n.traceObject != null :: n.site
  }

  lemma ErrsAre(nodes: set<TrieNode>, traces: set<Trace>, errs: map<Site, Option<string>>)
    requires Forest(nodes) && Holds(nodes, traces) && errs.Keys == HeldSites(nodes)
    requires forall n :: n in nodes && n.traceObject != null ==> errs[n.site] == n.traceObject.error
    ensures Errs(nodes, traces) == errs
  {
    var now := Errs(nodes, traces);
    assert now.Keys == HeldSites(nodes);
    forall x | x in errs ensures now[x] == errs[x] {
      var n :| n in nodes && n.traceObject != null && n.site == x;
    }
  }

  lemma HeldAt(nodes: set<TrieNode>, traces: set<Trace>, node: TrieNode)
    requires node in nodes && Forest(nodes) && Holds(nodes, traces)
    ensures node.site in Errs(nodes, traces) <==> node.traceObject != null
    ensures node.traceObject != null ==>
              node.traceObject in traces && Errs(nodes, traces)[node.site] == node.traceObject.error
  {
  }

  /**
   * One pass over the nodes at and below `node`. The children are visited in no particular order;
   * the count says that each node is visited once.
   */
  method MarkChildrenRecursive(node: TrieNode, isParentFailed: bool, ghost nodes: set<TrieNode>,
                               ghost traces: set<Trace>)
    returns (ghost visited: nat)
    requires node in nodes && Forest(nodes) && Holds(nodes, traces)
    modifies traces
    ensures Forest(nodes) && Holds(nodes, traces)
    ensures Errs(nodes, traces) == MarkUnder(old(Errs(nodes, traces)), node.site, isParentFailed)
    ensures visited == |Under(Sites(nodes), node.site)|
    decreases Under(Sites(nodes), node.site)
  {
    ghost var errs, x, sites := Errs(nodes, traces), node.site, Sites(nodes);
    var shouldFailChildren := MarkNode(node, isParentFailed, nodes, traces);

    visited := 1;
    var pending := node.children.Keys;
    ForestLetters(nodes, node);
    FirstPending(sites, pending, errs, x, isParentFailed);
    while pending != {}
      invariant pending <= node.children.Keys
      invariant Forest(nodes) && Holds(nodes, traces)
      invariant Errs(nodes, traces) == MarkPartly(errs, x, isParentFailed, pending)
      invariant visited == |Visited(sites, x, pending)|
    {
      var letter :| letter in pending;
      VisitOneChild(sites, x, pending, letter);
      ghost var part := MarkChildrenRecursive(node.children[letter], shouldFailChildren, nodes, traces);
      MarkOneChild(errs, x, isParentFailed, pending, letter);
      visited := visited + part;
      pending := pending - {letter};
    }
    NonePending(sites, errs, x, isParentFailed);
  }

  // ----- Building -----

  ghost function Objects(nodes: set<TrieNode>): map<Site, Trace?>
    requires Forest(nodes)
    reads nodes
  {
    map n | n in nodes :: n.site := n.traceObject
  }

  ghost function WithSite(objects: map<Site, Trace?>, x: Site): map<Site, Trace?> {
    if x in objects then objects else objects[x := null]
  }

  /** The nodes for the first n letters of the path are added where missing. */
  ghost function WithPath(objects: map<Site, Trace?>, seg: nat, path: Address, n: nat): map<Site, Trace?>
    requires n <= |path|
  {
    if n == 0 then objects else WithSite(WithPath(objects, seg, path, n - 1), Site(seg, path[..n]))
  }

  lemma {:induction false} WithPathFacts(objects: map<Site, Trace?>, seg: nat, path: Address, n: nat)
    requires n <= |path|
    ensures var grown := WithPath(objects, seg, path, n);
            && (forall x :: x in objects ==> x in grown && grown[x] == objects[x])
            && (forall x :: x in grown && x !in objects ==> grown[x] == null && x.seg == seg)
  {
    if n > 0 {
      WithPathFacts(objects, seg, path, n - 1);
    }
  }

  lemma ForestChild(nodes: set<TrieNode>, node: TrieNode, letter: nat)
    requires node in nodes && Forest(nodes)
    ensures letter in node.children <==> Child(node.site, letter) in Objects(nodes)
    ensures letter in node.children ==>
              node.children[letter] in nodes && node.children[letter].site == Child(node.site, letter)
  {
    ForestLetters(nodes, node);
    assert Objects(nodes).Keys == Sites(nodes);
    if letter in node.children {
      assert node.children[letter] in nodes;
    }
  }

  lemma PathStep(seg: nat, path: Address, i: nat)
    requires i < |path|
    ensures Child(Site(seg, path[..i]), path[i]) == Site(seg, path[..i + 1])
  {
    assert path[..i + 1] == path[..i] + [path[i]];
  }

  lemma ObjectsAre(nodes: set<TrieNode>, objects: map<Site, Trace?>)
    requires Forest(nodes) && objects.Keys == Sites(nodes)
    requires forall n :: n in nodes ==> objects[n.site] == n.traceObject
    ensures Objects(nodes) == objects
  {
    var now := Objects(nodes);
    assert now.Keys == Sites(nodes);
    forall x | x in objects ensures now[x] == objects[x] {
      var n :| n in nodes && n.site == x;
    }
  }

  lemma SitesWith(nodes: set<TrieNode>, child: TrieNode)
    ensures Sites(nodes + {child}) == Sites(nodes) + {child.site}
  {
    assert forall n :: n in nodes ==> n in nodes + {child};
  }

  /** Hang a new leaf below the node. */
  method AddChild(node: TrieNode, letter: nat, ghost nodes: set<TrieNode>) returns (child: TrieNode)
    requires node in nodes && Forest(nodes) && Child(node.site, letter) !in Objects(nodes)
    modifies node
    ensures fresh(child) && child.site == Child(node.site, letter)
    ensures Forest(nodes + {child})
    ensures Objects(nodes + {child}) == old(Objects(nodes))[child.site := null]
  {
    ghost var objects := Objects(nodes);
    child := new TrieNode(Child(node.site, letter), node);
    LinkChild(node, letter, child, nodes);
    SitesWith(nodes, child);
    ObjectsAre(nodes + {child}, objects[child.site := null]);
  }

  lemma SitesStayApart(nodes: set<TrieNode>, child: TrieNode)
    requires forall m, n :: m in nodes && n in nodes && m.site == n.site ==> m == n
    requires child.site !in Sites(nodes)
    ensures forall m, n :: m in nodes + {child} && n in nodes + {child} && m.site == n.site ==> m == n
  {
  }

  lemma ChildrenLinked(nodes: set<TrieNode>, node: TrieNode, letter: nat, child: TrieNode)
    requires letter in node.children && node.children[letter] == child && child.children == map[]
    requires child.site == Child(node.site, letter)
    requires forall n, l :: n in nodes && l in n.children && (n != node || l != letter) ==>
               n.children[l] in nodes && n.children[l].site == Child(n.site, l)
    ensures forall n, l :: n in nodes + {child} && l in n.children ==>
              n.children[l] in nodes + {child} && n.children[l].site == Child(n.site, l)
  {
  }

  lemma ParentsLinked(nodes: set<TrieNode>, child: TrieNode)
    requires child.site.path != [] && child.parent != null && child.parent in nodes && HasChild(child.parent, child)
    requires forall n :: n in nodes && n.site.path != [] ==>
               n.parent != null && n.parent in nodes && HasChild(n.parent, n)
    ensures forall n :: n in nodes + {child} && n.site.path != [] ==>
              n.parent != null && n.parent in nodes + {child} && HasChild(n.parent, n)
  {
  }

  method LinkChild(node: TrieNode, letter: nat, child: TrieNode, ghost nodes: set<TrieNode>)
    requires node in nodes && Forest(nodes) && Child(node.site, letter) !in Sites(nodes)
    requires child !in nodes && child.site == Child(node.site, letter) && child.parent == node
    requires child.children == map[]
    modifies node`children
    ensures Forest(nodes + {child})
  {
    node.children := node.children[letter := child];
    forall n | n in nodes && n.site.path != [] ensures HasChild(n.parent, n) {
      assert old(HasChild(n.parent, n));
    }
    SitesStayApart(nodes, child);
    ChildrenLinked(nodes, node, letter, child);
    ParentsLinked(nodes, child);
  }

  /** Attach a leaf for the letter unless the child is already there. */
  method BuildChildIfNotPresent(node: TrieNode, letter: nat, ghost nodes: set<TrieNode>)
    returns (child: TrieNode, ghost nodes': set<TrieNode>)
    requires node in nodes && Forest(nodes)
    modifies node
    ensures Forest(nodes') && child in nodes' && child.site == Child(node.site, letter)
    ensures nodes <= nodes' && fresh(nodes' - nodes) && |nodes'| <= |nodes| + 1
    ensures Objects(nodes') == WithSite(old(Objects(nodes)), Child(node.site, letter))
  {
    ForestChild(nodes, node, letter);
    if letter !in node.children {
      child := AddChild(node, letter, nodes);
      nodes' := nodes + {child};
    } else {
      child := node.children[letter];
      nodes' := nodes;
    }
  }

  /** The node is reached by the first i letters of the path, and what was missing on the way is there. */
  ghost predicate Reached(nodes: set<TrieNode>, node: TrieNode, objects: map<Site, Trace?>, seg: nat, path: Address,
                          i: nat)
    requires i <= |path|
    reads nodes
  {
    && Forest(nodes) && node in nodes && node.site == Site(seg, path[..i])
    && Objects(nodes) == WithPath(objects, seg, path, i)
  }

  method Descend(node: TrieNode, path: Address, i: nat, ghost nodes: set<TrieNode>, ghost objects: map<Site, Trace?>,
                 ghost seg: nat)
    returns (child: TrieNode, ghost nodes': set<TrieNode>)
    requires i < |path| && Reached(nodes, node, objects, seg, path, i)
    modifies node
    ensures Reached(nodes', child, objects, seg, path, i + 1)
    ensures nodes <= nodes' && fresh(nodes' - nodes) && |nodes'| <= |nodes| + 1
  {
    PathStep(seg, path, i);
    child, nodes' := BuildChildIfNotPresent(node, path[i], nodes);
  }

  lemma GrownTwice(nodes: set<TrieNode>, grown: set<TrieNode>, more: set<TrieNode>)
    requires nodes <= grown <= more
    ensures nodes <= more && more - nodes == (more - grown) + (grown - nodes)
  {
  }

  /** The node reached from the root by the letters of the path, built on the way where missing. */
  method ConstructTrieFromPathVector(root: TrieNode, path: Address, ghost nodes: set<TrieNode>, ghost seg: nat)
    returns (leaf: TrieNode, ghost nodes': set<TrieNode>)
    requires root in nodes && Forest(nodes) && root.site == Site(seg, [])
    modifies nodes
    ensures Forest(nodes') && leaf in nodes' && leaf.site == Site(seg, path)
    ensures nodes <= nodes' && fresh(nodes' - nodes) && |nodes'| <= |nodes| + |path|
    ensures Objects(nodes') == WithPath(old(Objects(nodes)), seg, path, |path|)
  {
    leaf, nodes' := root, nodes;
    ghost var objects := Objects(nodes);
    for i := 0 to |path|
      invariant Reached(nodes', leaf, objects, seg, path, i)
      invariant nodes <= nodes' && fresh(nodes' - nodes) && |nodes'| <= |nodes| + i
    {
      assert leaf in nodes || leaf in nodes' - nodes;
      ghost var grown := nodes';
      leaf, nodes' := Descend(leaf, path, i, nodes', objects, seg);
      GrownTwice(nodes, grown, nodes');
    }
    assert path[..|path|] == path;
  }

  /** Put the trace at the node; it takes the place of an earlier trace with the same address. */
  method SetTrace(node: TrieNode, trace: Trace, ghost nodes: set<TrieNode>)
    requires node in nodes && Forest(nodes)
    modifies node`traceObject
    ensures Forest(nodes)
    ensures Objects(nodes) == old(Objects(nodes))[node.site := trace]
  {
    ghost var objects := Objects(nodes);
    node.traceObject := trace;
    assert forall n :: n in nodes && n != node ==> n.traceObject == objects[n.site];
    ObjectsAre(nodes, objects[node.site := trace]);
  }

  method NewRoot(trace: Trace, ghost nodes: set<TrieNode>, ghost seg: nat) returns (root: TrieNode)
    requires Forest(nodes) && Site(seg, []) !in Sites(nodes)
    ensures fresh(root) && root.site == Site(seg, []) && Forest(nodes + {root})
    ensures Objects(nodes + {root}) == old(Objects(nodes))[root.site := trace]
  {
    ghost var objects := Objects(nodes);
    root := new TrieNode(Site(seg, []), null);
    root.traceObject := trace;
    SitesWith(nodes, root);
    ObjectsAre(nodes + {root}, objects[root.site := trace]);
  }

  // ----- Segments -----

  /** The number of root traces among the first n. */
  ghost function Roots(ts: seq<Trace>, n: nat): nat
    requires n <= |ts|
  {
    if n == 0 then 0 else Roots(ts, n - 1) + if ts[n - 1].traceAddress == [] then 1 else 0
  }

  ghost function Letters(ts: seq<Trace>, n: nat): nat
    requires n <= |ts|
  {
    if n == 0 then 0 else Letters(ts, n - 1) + |ts[n - 1].traceAddress|
  }

  ghost function SiteOf(ts: seq<Trace>, i: nat): Site
    requires i < |ts| && ts[0].traceAddress == []
  {
    RootsStep(ts, 0, i);
    Site(Roots(ts, i + 1) - 1, ts[i].traceAddress)
  }

  /** Root counts agree at i and j exactly when no root trace stands after i up to j. */
  lemma {:induction false} RootsStep(ts: seq<Trace>, i: nat, j: nat)
    requires i <= j < |ts|
    ensures Roots(ts, i + 1) <= Roots(ts, j + 1)
    ensures Roots(ts, i + 1) == Roots(ts, j + 1) <==> forall k :: i < k <= j ==> ts[k].traceAddress != []
  {
    if i < j {
      RootsStep(ts, i, j - 1);
    }
  }

  lemma SiteOfSegment(ts: seq<Trace>, vs: seq<TraceView>, i: nat, j: nat)
    requires i < |ts| && j < |ts| == |vs| && ts[0].traceAddress == []
    requires forall k :: 0 <= k < |ts| ==> vs[k].address == ts[k].traceAddress && vs[k].hash == vs[0].hash
    ensures SameSegment(vs, i, j) <==> SiteOf(ts, i).seg == SiteOf(ts, j).seg
  {
    if i <= j {
      RootsStep(ts, i, j);
    } else {
      RootsStep(ts, j, i);
    }
  }

  /** The first n traces stand at their sites, the later ones in the place of the earlier ones. */
  ghost predicate Placed(objects: map<Site, Trace?>, ts: seq<Trace>, n: nat, at: map<Site, nat>)
    requires n <= |ts| && (n > 0 ==> ts[0].traceAddress == [])
  {
    && at.Keys <= objects.Keys
    && (forall x :: x in objects ==> objects[x] == if x in at && at[x] < |ts| then ts[at[x]] else null)
    && (forall x :: x in at ==> at[x] < n && x == SiteOf(ts, at[x]))
    && (forall i :: 0 <= i < n ==> SiteOf(ts, i) in at && at[SiteOf(ts, i)] >= i)
  }

  lemma PlacedNext(objects: map<Site, Trace?>, grown: map<Site, Trace?>, ts: seq<Trace>, n: nat, at: map<Site, nat>)
    requires n < |ts| && ts[0].traceAddress == [] && Placed(objects, ts, n, at)
    requires forall x :: x in objects ==> x in grown && grown[x] == objects[x]
    requires forall x :: x in grown && x !in objects ==> grown[x] == null
    ensures Placed(grown[SiteOf(ts, n) := ts[n]], ts, n + 1, at[SiteOf(ts, n) := n])
  {
  }

  /** The tries of the first n traces: one root per root trace, and no more nodes than letters and roots. */
  ghost predicate Built(ts: seq<Trace>, n: nat, trieRoots: seq<TrieNode>, nodes: set<TrieNode>, at: map<Site, nat>)
    requires n <= |ts| && ts != [] && ts[0].traceAddress == []
    reads nodes
  {
    && Forest(nodes) && Placed(Objects(nodes), ts, n, at)
    && |trieRoots| == Roots(ts, n)
    && (forall k :: 0 <= k < |trieRoots| ==> trieRoots[k] in nodes && trieRoots[k].site == Site(k, []))
    && (forall x :: x in Objects(nodes) ==> x.seg < |trieRoots|)
    && |nodes| <= Roots(ts, n) + Letters(ts, n)
  }

  method AddRootTrace(ts: seq<Trace>, n: nat, trieRoots: seq<TrieNode>, ghost nodes: set<TrieNode>,
                      ghost at: map<Site, nat>)
    returns (root: TrieNode)
    requires n < |ts| && ts[0].traceAddress == [] && ts[n].traceAddress == []
    requires Built(ts, n, trieRoots, nodes, at)
    ensures fresh(root)
    ensures Built(ts, n + 1, trieRoots + [root], nodes + {root}, at[SiteOf(ts, n) := n])
  {
    ghost var objects := Objects(nodes);
    assert objects.Keys == Sites(nodes);
    root := NewRoot(ts[n], nodes, |trieRoots|);
    assert SiteOf(ts, n) == root.site;
    PlacedNext(objects, objects, ts, n, at);
  }

  method AddInnerTrace(ts: seq<Trace>, n: nat, trieRoots: seq<TrieNode>, ghost nodes: set<TrieNode>,
                       ghost at: map<Site, nat>)
    returns (ghost nodes': set<TrieNode>)
    requires n < |ts| && ts[0].traceAddress == [] && ts[n].traceAddress != []
    requires trieRoots != [] && Built(ts, n, trieRoots, nodes, at)
    modifies nodes
    ensures nodes <= nodes' && fresh(nodes' - nodes)
    ensures Built(ts, n + 1, trieRoots, nodes', at[SiteOf(ts, n) := n])
  {
    var path := ts[n].traceAddress;
    ghost var objects, seg := Objects(nodes), |trieRoots| - 1;
    var leaf;
    leaf, nodes' := ConstructTrieFromPathVector(trieRoots[|trieRoots| - 1], path, nodes, seg);
    assert SiteOf(ts, n) == leaf.site;
    WithPathFacts(objects, seg, path, |path|);
    PlacedNext(objects, Objects(nodes'), ts, n, at);
    SetTrace(leaf, ts[n], nodes');
  }

  /** One trie per root trace, holding the traces up to the next root trace. */
  method BuildTries(inputTraces: seq<Trace>)
    returns (trieRoots: seq<TrieNode>, ghost nodes: set<TrieNode>, ghost at: map<Site, nat>)
    requires inputTraces != [] && inputTraces[0].traceAddress == []
    ensures fresh(nodes) && Built(inputTraces, |inputTraces|, trieRoots, nodes, at)
  {
    trieRoots, nodes, at := [], {}, map[];
    for i := 0 to |inputTraces|
      invariant fresh(nodes) && Built(inputTraces, i, trieRoots, nodes, at)
      invariant i > 0 ==> trieRoots != []
    {
      if inputTraces[i].traceAddress == [] {
        var currentTrieRoot := AddRootTrace(inputTraces, i, trieRoots, nodes, at);
        trieRoots, nodes := trieRoots + [currentTrieRoot], nodes + {currentTrieRoot};
      } else {
        nodes := AddInnerTrace(inputTraces, i, trieRoots, nodes, at);
      }
      at := at[SiteOf(inputTraces, i) := i];
    }
  }

  // ----- Marking all tries -----

  ghost function MarkRoots(errs: map<Site, Option<string>>, k: nat): map<Site, Option<string>> {
    map y | y in errs ::
      if y.seg < k then NewError(errs[y], FailedAbove(errs, Site(y.seg, []), y)) else errs[y]
  }

  lemma MarkNextRoot(errs: map<Site, Option<string>>, k: nat)
    ensures MarkUnder(MarkRoots(errs, k), Site(k, []), false) == MarkRoots(errs, k + 1)
  {
    var now, root := MarkRoots(errs, k), Site(k, []);
    forall y | y in errs ensures MarkUnder(now, root, false)[y] == MarkRoots(errs, k + 1)[y] {
      assert y.path[..0] == [];
      if y.seg == k {
        assert forall n: nat :: n < |y.path| ==> Prefix(y, n).seg == k;
        assert FailedAbove(now, root, y) <==> FailedAbove(errs, root, y);
      }
    }
  }

  ghost function FirstSegs(sites: set<Site>, k: nat): set<Site> {
    set y | y in sites && y.seg < k
  }

  lemma FirstSegsStep(sites: set<Site>, k: nat)
    ensures |FirstSegs(sites, k + 1)| == |FirstSegs(sites, k)| + |Under(sites, Site(k, []))|
  {
    assert forall y :: y in sites ==> (Below(Site(k, []), y) <==> y.seg == k);
    assert FirstSegs(sites, k + 1) == FirstSegs(sites, k) + Under(sites, Site(k, []));
    assert FirstSegs(sites, k) !! Under(sites, Site(k, []));
  }

  lemma NoRootsYet(errs: map<Site, Option<string>>, sites: set<Site>)
    ensures MarkRoots(errs, 0) == errs && FirstSegs(sites, 0) == {}
  {
  }

  method MarkTries(trieRoots: seq<TrieNode>, ghost nodes: set<TrieNode>, ghost traces: set<Trace>)
    returns (ghost visited: nat)
    requires Forest(nodes) && Holds(nodes, traces)
    requires forall k :: 0 <= k < |trieRoots| ==> trieRoots[k] in nodes && trieRoots[k].site == Site(k, [])
    modifies traces
    ensures Forest(nodes) && Holds(nodes, traces)
    ensures Errs(nodes, traces) == MarkRoots(old(Errs(nodes, traces)), |trieRoots|)
    ensures visited == |FirstSegs(Sites(nodes), |trieRoots|)|
  {
    ghost var errs, sites := Errs(nodes, traces), Sites(nodes);
    visited := 0;
    NoRootsYet(errs, sites);
    for k := 0 to |trieRoots|
      invariant Forest(nodes) && Holds(nodes, traces)
      invariant Errs(nodes, traces) == MarkRoots(errs, k)
      invariant visited == |FirstSegs(sites, k)|
    {
      MarkNextRoot(errs, k);
      FirstSegsStep(sites, k);
      ghost var part := MarkChildrenRecursive(trieRoots[k], false, nodes, traces);
      visited := visited + part;
    }
  }

  // ----- The trie does what the rule says -----

  ghost predicate OneTransaction(ts: seq<Trace>) {
    forall i :: 0 <= i < |ts| ==> ts[i].transactionHash == ts[0].transactionHash
  }

  /** The last trace at each site, and the error it has. */
  ghost predicate LastAt(ts: seq<Trace>, at: map<Site, nat>)
    requires ts != [] && ts[0].traceAddress == []
  {
    && (forall x :: x in at ==> at[x] < |ts| && x == SiteOf(ts, at[x]))
    && (forall i :: 0 <= i < |ts| ==> SiteOf(ts, i) in at && at[SiteOf(ts, i)] >= i)
  }

  lemma ShadowedIsNotLast(ts: seq<Trace>, vs: seq<TraceView>, at: map<Site, nat>, i: nat)
    requires i < |ts| == |vs| && ts[0].traceAddress == [] && LastAt(ts, at)
    requires forall k :: 0 <= k < |ts| ==> vs[k].address == ts[k].traceAddress && vs[k].hash == vs[0].hash
    ensures Shadowed(vs, i) <==> at[SiteOf(ts, i)] != i
  {
    var j := at[SiteOf(ts, i)];
    SiteOfSegment(ts, vs, i, j);
    if Shadowed(vs, i) {
      var m :| i < m < |vs| && SameSegment(vs, i, m) && vs[m].address == vs[i].address;
      SiteOfSegment(ts, vs, i, m);
      assert SiteOf(ts, m) == SiteOf(ts, i);
    }
  }

  lemma RuleAtSites(ts: seq<Trace>, vs: seq<TraceView>, at: map<Site, nat>, errs: map<Site, Option<string>>, i: nat)
    requires i < |ts| == |vs| && ts[0].traceAddress == [] && LastAt(ts, at)
    requires forall k :: 0 <= k < |ts| ==> vs[k].address == ts[k].traceAddress && vs[k].hash == vs[0].hash
    requires errs.Keys == at.Keys && forall x :: x in at ==> errs[x] == vs[at[x]].error
    ensures var x := SiteOf(ts, i);
            HasFailedAncestor(vs, i) <==> FailedAbove(errs, Site(x.seg, []), x)
  {
    var x := SiteOf(ts, i);
    if HasFailedAncestor(vs, i) {
      var j :| FailedAncestor(vs, j, i);
      SiteOfSegment(ts, vs, j, i);
      ShadowedIsNotLast(ts, vs, at, j);
      assert Prefix(x, |vs[j].address|) == SiteOf(ts, j);
    }
    if FailedAbove(errs, Site(x.seg, []), x) {
      var n: nat :| n < |x.path| && Prefix(x, n) in errs && Failed(errs[Prefix(x, n)]);
      var j := at[Prefix(x, n)];
      SiteOfSegment(ts, vs, j, i);
      ShadowedIsNotLast(ts, vs, at, j);
      assert FailedAncestor(vs, j, i);
    }
  }

  lemma SitesCount(nodes: set<TrieNode>)
    ensures |Sites(nodes)| <= |nodes|
  {
    if nodes != {} {
      var n :| n in nodes;
      SitesCount(nodes - {n});
      SitesWith(nodes - {n}, n);
      assert nodes - {n} + {n} == nodes;
    }
  }

  lemma FewVisits(ts: seq<Trace>, trieRoots: seq<TrieNode>, nodes: set<TrieNode>, at: map<Site, nat>)
    requires ts != [] && ts[0].traceAddress == [] && Built(ts, |ts|, trieRoots, nodes, at)
    ensures |FirstSegs(Sites(nodes), |trieRoots|)| <= Roots(ts, |ts|) + Letters(ts, |ts|)
  {
    assert Objects(nodes).Keys == Sites(nodes);
    assert FirstSegs(Sites(nodes), |trieRoots|) == Sites(nodes);
    SitesCount(nodes);
  }

  ghost function TracesAt(ts: seq<Trace>, at: map<Site, nat>): set<Trace> {
    set x | x in at && at[x] < |ts| :: ts[at[x]]
  }

  ghost function ErrorsAt(ts: seq<Trace>, at: map<Site, nat>): map<Site, Option<string>>
    reads ts
  {
    map x | x in at && at[x] < |ts| :: ts[at[x]].error
  }

  lemma BuiltHolds(ts: seq<Trace>, trieRoots: seq<TrieNode>, nodes: set<TrieNode>, at: map<Site, nat>)
    requires Distinct(ts) && ts != [] && ts[0].traceAddress == [] && Built(ts, |ts|, trieRoots, nodes, at)
    ensures Holds(nodes, TracesAt(ts, at))
    ensures LastAt(ts, at)
    ensures Errs(nodes, TracesAt(ts, at)) == ErrorsAt(ts, at)
  {
    var objects := Objects(nodes);
    forall n | n in nodes && n.traceObject != null
      ensures n.site in at && at[n.site] < |ts| && n.traceObject == ts[at[n.site]]
    {
      assert objects[n.site] == n.traceObject;
    }
    forall m, n | m in nodes && n in nodes && m.traceObject == n.traceObject != null ensures m == n {
      assert at[m.site] == at[n.site];
      assert m.site == SiteOf(ts, at[m.site]) == n.site;
    }
    assert HeldSites(nodes) == at.Keys by {
      forall x | x in at ensures x in HeldSites(nodes) {
        var n :| n in nodes && n.site == x;
        assert n.traceObject == objects[x];
      }
    }
    ErrsAre(nodes, TracesAt(ts, at), ErrorsAt(ts, at));
  }

  method MarkBuilt(ts: seq<Trace>, trieRoots: seq<TrieNode>, ghost nodes: set<TrieNode>, ghost at: map<Site, nat>)
    returns (ghost visited: nat)
    requires Distinct(ts) && ts != [] && ts[0].traceAddress == [] && Built(ts, |ts|, trieRoots, nodes, at)
    modifies TracesAt(ts, at)
    ensures ErrorsAt(ts, at) == MarkRoots(old(ErrorsAt(ts, at)), |trieRoots|)
    ensures visited <= Roots(ts, |ts|) + Letters(ts, |ts|)
  {
    BuiltHolds(ts, trieRoots, nodes, at);
    FewVisits(ts, trieRoots, nodes, at);
    visited := MarkTries(trieRoots, nodes, TracesAt(ts, at));
    BuiltHolds(ts, trieRoots, nodes, at);
  }

  /** What the rule says of trace i is what the tries did to it. */
  lemma MarkedInTrie(ts: seq<Trace>, vs: seq<TraceView>, at: map<Site, nat>, errs: map<Site, Option<string>>, i: nat)
    requires i < |ts| == |vs| && ts[0].traceAddress == [] && LastAt(ts, at)
    requires forall k :: 0 <= k < |ts| ==> vs[k].address == ts[k].traceAddress && vs[k].hash == vs[0].hash
    requires errs.Keys == at.Keys && forall x :: x in at ==> errs[x] == vs[at[x]].error
    ensures var x := SiteOf(ts, i);
            MarkedError(vs, i) == if at[x] == i then MarkRoots(errs, Roots(ts, |ts|))[x] else vs[i].error
  {
    ShadowedIsNotLast(ts, vs, at, i);
    RuleAtSites(ts, vs, at, errs, i);
    SegInRange(ts, i);
  }

  lemma SegInRange(ts: seq<Trace>, i: nat)
    requires i < |ts| && ts[0].traceAddress == []
    ensures SiteOf(ts, i).seg < Roots(ts, |ts|)
  {
    RootsStep(ts, i, |ts| - 1);
  }

  lemma NotTaken(ts: seq<Trace>, at: map<Site, nat>, i: nat)
    requires i < |ts| && Distinct(ts) && ts[0].traceAddress == [] && LastAt(ts, at)
    ensures ts[i] in TracesAt(ts, at) <==> at[SiteOf(ts, i)] == i
  {
  }

  /**
   * Marks, in place, exactly the traces the rule says, and changes nothing else. It fails exactly when
   * the first trace is missing or is not a root trace, and visits no more nodes than there are root
   * traces and letters of addresses.
   */
  method MarkChildrenWithFailedParents(inputTraces: seq<Trace>) returns (r: Result<()>, ghost visited: nat)
    requires Distinct(inputTraces) && OneTransaction(inputTraces)
    modifies inputTraces
    ensures r.Ok? <==> inputTraces != [] && inputTraces[0].traceAddress == []
    ensures r.Ok? ==> forall i :: 0 <= i < |inputTraces| ==>
              inputTraces[i].error == MarkedError(old(Views(inputTraces)), i)
    ensures r.Err? ==> forall i :: 0 <= i < |inputTraces| ==> inputTraces[i].error == old(inputTraces[i].error)
    ensures r.Ok? ==> visited <= Roots(inputTraces, |inputTraces|) + Letters(inputTraces, |inputTraces|)
  {
    if |inputTraces| == 0 {
      return Err("Input traces argument should be non empty"), 0;
    }
    if |inputTraces[0].traceAddress| != 0 {
      return Err("First trace per tx should be a root trace"), 0;
    }
    visited := MarkByTries(inputTraces);
    r := Ok(());
  }

  method MarkByTries(ts: seq<Trace>) returns (ghost visited: nat)
    requires Distinct(ts) && OneTransaction(ts) && ts != [] && ts[0].traceAddress == []
    modifies ts
    ensures forall i :: 0 <= i < |ts| ==> ts[i].error == MarkedError(old(Views(ts)), i)
    ensures visited <= Roots(ts, |ts|) + Letters(ts, |ts|)
  {
    ghost var vs := Views(ts);
    var trieRoots;
    ghost var nodes, at;
    trieRoots, nodes, at := BuildTries(ts);
    ghost var errs := ErrorsAt(ts, at);
    assert LastAt(ts, at);
    visited := MarkBuilt(ts, trieRoots, nodes, at);
    forall i | 0 <= i < |ts| ensures ts[i].error == MarkedError(vs, i) {
      MarkedInTrie(ts, vs, at, errs, i);
      NotTaken(ts, at, i);
    }
  }
}

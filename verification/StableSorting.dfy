/** stableSort of erc20/lib/util.js: a native sort made stable by comparing positions last. */
module StableSorting {
  import opened Common

  type Comparator<!T> = (T, T) -> int

  /** A name for three elements, by which the orderings below are applied to them. */
  predicate Three<T>(a: T, b: T, c: T) { true }

  ghost predicate Ordered<T>(cmp: Comparator<T>, a: T, b: T, c: T) {
    && (cmp(a, b) < 0 <==> cmp(b, a) > 0)
    && (cmp(a, b) <= 0 && cmp(b, c) <= 0 ==> cmp(a, c) <= 0)
  }

  /** The sign of cmp orders the elements, ties allowed. */
  ghost predicate Ordering<T(!new)>(cmp: Comparator<T>) {
    forall a, b, c {:trigger Three(a, b, c)} :: Ordered(cmp, a, b, c)
  }

  lemma Compare<T(!new)>(cmp: Comparator<T>, a: T, b: T, c: T)
    requires Ordering(cmp)
    ensures Ordered(cmp, a, b, c) && Ordered(cmp, b, a, c)
  {
    assert Three(a, b, c) && Three(b, a, c);
  }

  predicate Sorted<T>(s: seq<T>, cmp: Comparator<T>) {
    forall i, j :: 0 <= i < j < |s| ==> cmp(s[i], s[j]) <= 0
  }

  /** Put x behind the elements that are not greater. */
  function Insert<T>(t: seq<T>, x: T, cmp: Comparator<T>): seq<T> {
    if t == [] || cmp(t[|t| - 1], x) <= 0 then t + [x]
    else Insert(t[..|t| - 1], x, cmp) + [t[|t| - 1]]
  }

  function StableSorted<T>(s: seq<T>, cmp: Comparator<T>): seq<T> {
    if s == [] then [] else Insert(StableSorted(s[..|s| - 1], cmp), s[|s| - 1], cmp)
  }

  lemma {:induction false} InsertPermutes<T>(t: seq<T>, x: T, cmp: Comparator<T>)
    ensures multiset(Insert(t, x, cmp)) == multiset(t) + multiset{x}
  {
    if t != [] && cmp(t[|t| - 1], x) > 0 {
      InsertPermutes(t[..|t| - 1], x, cmp);
      assert t == t[..|t| - 1] + [t[|t| - 1]];
    }
  }

  lemma InsertMember<T>(t: seq<T>, x: T, cmp: Comparator<T>, y: T)
    ensures y in Insert(t, x, cmp) <==> y in t || y == x
  {
    InsertPermutes(t, x, cmp);
    assert y in Insert(t, x, cmp) <==> y in multiset(Insert(t, x, cmp));
  }

  lemma SortedSnoc<T>(t: seq<T>, x: T, cmp: Comparator<T>)
    requires Sorted(t, cmp) && forall y :: y in t ==> cmp(y, x) <= 0
    ensures Sorted(t + [x], cmp)
  {
  }

  lemma {:induction false} InsertSorts<T(!new)>(t: seq<T>, x: T, cmp: Comparator<T>)
    requires Ordering(cmp) && Sorted(t, cmp)
    ensures Sorted(Insert(t, x, cmp), cmp)
  {
    if t != [] {
      var init, last := t[..|t| - 1], t[|t| - 1];
      Compare(cmp, last, x, x);
      if cmp(last, x) <= 0 {
        forall y | y in t ensures cmp(y, x) <= 0 {
          Compare(cmp, y, last, x);
        }
        SortedSnoc(t, x, cmp);
      } else {
        InsertSorts(init, x, cmp);
        forall y | y in Insert(init, x, cmp) ensures cmp(y, last) <= 0 {
          InsertMember(init, x, cmp, y);
        }
        SortedSnoc(Insert(init, x, cmp), last, cmp);
      }
    }
  }

  lemma {:induction false} StableSortedPermutes<T>(s: seq<T>, cmp: Comparator<T>)
    ensures multiset(StableSorted(s, cmp)) == multiset(s)
  {
    if s != [] {
      StableSortedPermutes(s[..|s| - 1], cmp);
      InsertPermutes(StableSorted(s[..|s| - 1], cmp), s[|s| - 1], cmp);
      assert s == s[..|s| - 1] + [s[|s| - 1]];
    }
  }

  lemma {:induction false} StableSortedSorts<T(!new)>(s: seq<T>, cmp: Comparator<T>)
    requires Ordering(cmp)
    ensures Sorted(StableSorted(s, cmp), cmp)
  {
    if s != [] {
      StableSortedSorts(s[..|s| - 1], cmp);
      InsertSorts(StableSorted(s[..|s| - 1], cmp), s[|s| - 1], cmp);
    }
  }

  /** A sorted list stays as it is. */
  lemma {:induction false} SortedIsFixed<T>(s: seq<T>, cmp: Comparator<T>)
    requires Sorted(s, cmp)
    ensures StableSorted(s, cmp) == s
  {
    if s != [] {
      SortedIsFixed(s[..|s| - 1], cmp);
      InsertLast(s, cmp);
    }
  }

  lemma InsertLast<T>(s: seq<T>, cmp: Comparator<T>)
    requires Sorted(s, cmp) && s != []
    ensures Insert(s[..|s| - 1], s[|s| - 1], cmp) == s
  {
    WithoutLast(s);
    if |s| > 1 {
      assert cmp(s[|s| - 2], s[|s| - 1]) <= 0;
    }
  }

  lemma InsertAtEnd<T(!new)>(t: seq<T>, x: T, cmp: Comparator<T>, p: T -> bool)
    requires Ordering(cmp) && Sorted(t, cmp) && t != [] && cmp(t[|t| - 1], x) <= 0
    ensures Insert(Filter(t, p), x, cmp) == Filter(t, p) + [x]
  {
    var f := Filter(t, p);
    if f != [] {
      var y := f[|f| - 1];
      FilterMember(t, p, y);
      LastIsGreatest(t, cmp, y);
      Compare(cmp, y, t[|t| - 1], x);
    }
  }

  lemma {:induction false} FilterInsert<T(!new)>(t: seq<T>, x: T, cmp: Comparator<T>, p: T -> bool)
    requires Ordering(cmp) && Sorted(t, cmp)
    ensures Filter(Insert(t, x, cmp), p) == if p(x) then Insert(Filter(t, p), x, cmp) else Filter(t, p)
  {
    if t == [] {
      FilterSnoc(t, x, p);
    } else if cmp(t[|t| - 1], x) <= 0 {
      FilterSnoc(t, x, p);
      InsertAtEnd(t, x, cmp, p);
    } else {
      var init, last := t[..|t| - 1], t[|t| - 1];
      assert t == init + [last];
      FilterInsert(init, x, cmp, p);
      FilterSnoc(Insert(init, x, cmp), last, p);
      FilterSnoc(init, last, p);
      var f := Filter(init, p);
      assert (f + [last])[..|f|] == f;
    }
  }

  /** Selecting and sorting can be done in either order. */
  lemma {:induction false} FilterStableSorted<T(!new)>(s: seq<T>, cmp: Comparator<T>, p: T -> bool)
    requires Ordering(cmp)
    ensures Filter(StableSorted(s, cmp), p) == StableSorted(Filter(s, p), cmp)
  {
    if s != [] {
      var init, last := s[..|s| - 1], s[|s| - 1];
      assert s == init + [last];
      FilterStableSorted(init, cmp, p);
      StableSortedSorts(init, cmp);
      FilterInsert(StableSorted(init, cmp), last, cmp, p);
      FilterSnoc(init, last, p);
      var f := Filter(init, p);
      assert (f + [last])[..|f|] == f;
    }
  }

  /** The native sort: nothing is promised beyond a sorted permutation. */
  method NativeSort<T(==,!new)>(s: seq<T>, cmp: Comparator<T>) returns (r: seq<T>)
    requires Ordering(cmp)
    ensures Sorted(r, cmp) && multiset(r) == multiset(s)
  {
    r := [];
    for i := 0 to |s|
      invariant r == StableSorted(s[..i], cmp)
    {
      assert s[..i + 1][..i] == s[..i];
      r := Insert(r, s[i], cmp);
    }
    assert s[..|s|] == s;
    StableSortedSorts(s, cmp);
    StableSortedPermutes(s, cmp);
  }

  // ----- Positions -----

  datatype Tagged<T> = Tagged(element: T, position: int)

  function Tag<T>(s: seq<T>): seq<Tagged<T>> {
    seq(|s|, i requires 0 <= i < |s| => Tagged(s[i], i))
  }

  function Untag<T>(t: seq<Tagged<T>>): seq<T> {
    seq(|t|, i requires 0 <= i < |t| => t[i].element)
  }

  function ByPosition<T>(cmp: Comparator<T>): Comparator<Tagged<T>> {
    (a: Tagged<T>, b: Tagged<T>) => if cmp(a.element, b.element) != 0 then cmp(a.element, b.element)
        else a.position - b.position
  }

  lemma ByPositionOrders<T(!new)>(cmp: Comparator<T>)
    requires Ordering(cmp)
    ensures Ordering(ByPosition(cmp))
  {
    forall a: Tagged<T>, b: Tagged<T>, c: Tagged<T> ensures Ordered(ByPosition(cmp), a, b, c) {
      Compare(cmp, a.element, b.element, c.element);
      Compare(cmp, b.element, c.element, a.element);
      Compare(cmp, c.element, a.element, b.element);
    }
  }

  /** Sorted, and no two elements at the same place. */
  predicate StrictlySorted<T>(s: seq<T>, cmp: Comparator<T>) {
    forall i, j :: 0 <= i < j < |s| ==> cmp(s[i], s[j]) < 0
  }

  lemma WithoutLast<T>(s: seq<T>)
    requires s != []
    ensures s == s[..|s| - 1] + [s[|s| - 1]]
    ensures multiset(s[..|s| - 1]) == multiset(s) - multiset{s[|s| - 1]}
  {
    assert s == s[..|s| - 1] + [s[|s| - 1]];
  }

  lemma LastIsGreatest<T(!new)>(s: seq<T>, cmp: Comparator<T>, x: T)
    requires Ordering(cmp) && Sorted(s, cmp) && x in s
    ensures cmp(x, s[|s| - 1]) <= 0
  {
    Compare(cmp, x, x, x);
  }

  lemma GreatestAgree<T(!new)>(a: seq<T>, b: seq<T>, cmp: Comparator<T>)
    requires Ordering(cmp) && StrictlySorted(a, cmp) && Sorted(b, cmp)
    requires a != [] && b != [] && a[|a| - 1] in b && b[|b| - 1] in a
    ensures a[|a| - 1] == b[|b| - 1]
  {
    var x, y := a[|a| - 1], b[|b| - 1];
    LastIsGreatest(b, cmp, x);
    Compare(cmp, x, y, x);
  }

  lemma SameElements<T>(a: seq<T>, b: seq<T>, x: T)
    requires multiset(a) == multiset(b) && x in a
    ensures x in b
  {
    assert x in multiset(b);
  }

  lemma InitsAgree<T(!new)>(a: seq<T>, b: seq<T>, cmp: Comparator<T>)
    requires Ordering(cmp) && StrictlySorted(a, cmp) && Sorted(b, cmp) && multiset(a) == multiset(b)
    requires a != [] && b != []
    ensures a[|a| - 1] == b[|b| - 1]
    ensures multiset(a[..|a| - 1]) == multiset(b[..|b| - 1])
  {
    SameElements(a, b, a[|a| - 1]);
    SameElements(b, a, b[|b| - 1]);
    GreatestAgree(a, b, cmp);
    WithoutLast(a);
    WithoutLast(b);
  }

  lemma SameInitAndLast<T>(a: seq<T>, b: seq<T>)
    requires a != [] && b != [] && a[..|a| - 1] == b[..|b| - 1] && a[|a| - 1] == b[|b| - 1]
    ensures a == b
  {
    WithoutLast(a);
    WithoutLast(b);
  }

  lemma SameLength<T>(a: seq<T>, b: seq<T>)
    requires multiset(a) == multiset(b)
    ensures |a| == |b|
  {
    assert |a| == |multiset(a)| && |b| == |multiset(b)|;
  }

  /** Without ties there is one sorted arrangement. */
  lemma {:induction false} StrictOrderIsUnique<T(!new)>(a: seq<T>, b: seq<T>, cmp: Comparator<T>)
    requires Ordering(cmp) && StrictlySorted(a, cmp) && Sorted(b, cmp) && multiset(a) == multiset(b)
    ensures a == b
    decreases |a|
  {
    SameLength(a, b);
    if a != [] {
      InitsAgree(a, b, cmp);
      StrictOrderIsUnique(a[..|a| - 1], b[..|b| - 1], cmp);
      SameInitAndLast(a, b);
    }
  }

  ghost predicate TaggedBelow<T>(t: seq<Tagged<T>>, p: int) {
    forall i :: 0 <= i < |t| ==> t[i].position < p
  }

  /** A later position goes behind its ties: comparing positions changes nothing but the ties. */
  lemma {:induction false} InsertTagged<T>(t: seq<Tagged<T>>, x: Tagged<T>, cmp: Comparator<T>)
    requires TaggedBelow(t, x.position)
    ensures Untag(Insert(t, x, ByPosition(cmp))) == Insert(Untag(t), x.element, cmp)
  {
    var u := Untag(t);
    if t != [] {
      var init, last := t[..|t| - 1], t[|t| - 1];
      assert Untag(init) == u[..|u| - 1] && u[|u| - 1] == last.element;
      assert ByPosition(cmp)(last, x) <= 0 <==> cmp(last.element, x.element) <= 0;
      if cmp(last.element, x.element) <= 0 {
        assert Untag(t + [x]) == u + [x.element];
      } else {
        InsertTagged(init, x, cmp);
        assert Untag(Insert(init, x, ByPosition(cmp)) + [last])
            == Untag(Insert(init, x, ByPosition(cmp))) + [last.element];
      }
    } else {
      assert Untag(t + [x]) == u + [x.element];
    }
  }

  lemma {:induction false} StableSortedTagged<T>(s: seq<T>, cmp: Comparator<T>)
    ensures Untag(StableSorted(Tag(s), ByPosition(cmp))) == StableSorted(s, cmp)
    ensures TaggedBelow(StableSorted(Tag(s), ByPosition(cmp)), |s|)
  {
    if s != [] {
      var init := s[..|s| - 1];
      StableSortedTagged(init, cmp);
      assert Tag(s)[..|s| - 1] == Tag(init);
      var t, x := StableSorted(Tag(init), ByPosition(cmp)), Tag(s)[|s| - 1];
      InsertTagged(t, x, cmp);
      forall y | y in Insert(t, x, ByPosition(cmp)) ensures y.position < |s| {
        InsertMember(t, x, ByPosition(cmp), y);
      }
    }
  }

  predicate DistinctPositions<T>(t: seq<Tagged<T>>) {
    forall i, j :: 0 <= i < j < |t| ==> t[i].position != t[j].position
  }

  lemma CountOfTag<T>(s: seq<T>, t: Tagged<T>)
    ensures multiset(Tag(s))[t] <= 1
  {
    if s != [] {
      CountOfTag(s[..|s| - 1], t);
      assert Tag(s) == Tag(s[..|s| - 1]) + [Tagged(s[|s| - 1], |s| - 1)];
      assert t in Tag(s[..|s| - 1]) ==> t.position < |s| - 1;
    }
  }

  lemma TwiceCounted<T>(t: seq<T>, i: nat, j: nat)
    requires i < j < |t| && t[i] == t[j]
    ensures multiset(t)[t[i]] >= 2
  {
    assert t == t[..j] + t[j..];
    assert t[i] in t[..j] && t[j] in t[j..];
  }

  /** However the elements are arranged, their positions tell them apart. */
  lemma ArrangedPositionsDiffer<T>(s: seq<T>, t: seq<Tagged<T>>)
    requires multiset(t) == multiset(Tag(s))
    ensures DistinctPositions(t)
  {
    forall i, j | 0 <= i < j < |t| ensures t[i].position != t[j].position {
      assert t[i] in multiset(Tag(s)) && t[j] in multiset(Tag(s));
      if t[i].position == t[j].position {
        assert t[i] == t[j];
        TwiceCounted(t, i, j);
        CountOfTag(s, t[i]);
      }
    }
  }

  lemma DistinctIsStrict<T(!new)>(t: seq<Tagged<T>>, cmp: Comparator<T>)
    requires DistinctPositions(t) && Sorted(t, ByPosition(cmp))
    ensures StrictlySorted(t, ByPosition(cmp))
  {
  }

  /** Whatever the native sort does with ties, sorting with positions gives the stable arrangement. */
  lemma TaggedSortIsStable<T(!new)>(s: seq<T>, t: seq<Tagged<T>>, cmp: Comparator<T>)
    requires Ordering(cmp) && multiset(t) == multiset(Tag(s)) && Sorted(t, ByPosition(cmp))
    ensures Untag(t) == StableSorted(s, cmp)
  {
    ByPositionOrders(cmp);
    ArrangedPositionsDiffer(s, t);
    DistinctIsStrict(t, cmp);
    StableSortedPermutes(Tag(s), ByPosition(cmp));
    StableSortedSorts(Tag(s), ByPosition(cmp));
    StrictOrderIsUnique(t, StableSorted(Tag(s), ByPosition(cmp)), ByPosition(cmp));
    StableSortedTagged(s, cmp);
  }

  method StableSort<T(==,!new)>(a: array<T>, cmp: Comparator<T>)
    requires Ordering(cmp)
    modifies a
    ensures a[..] == StableSorted(old(a[..]), cmp)
  {
    ghost var s := a[..];
    ByPositionOrders(cmp);
    var t := NativeSort(Tag(a[..]), ByPosition(cmp));
    TaggedSortIsStable(s, t, cmp);
    assert |t| == |multiset(t)| == |multiset(Tag(s))| == a.Length;
    forall i | 0 <= i < a.Length {
      a[i] := t[i].element;
    }
    assert a[..] == Untag(t);
  }
}

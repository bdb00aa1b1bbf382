/** The list of blocks to export, as intervals: lib/fetch_blocks_list.js. */
module BlocksList {
  import opened Common
  import opened Chunks

  /** An interval of at most maxInterval + 1 blocks stays whole; a longer one is cut every maxInterval blocks. */
  function Breakdown(start: int, end: int, maxInterval: int): seq<Chunk>
    requires maxInterval >= 1
  {
    if end - start <= maxInterval then [(start, end)] else Cut(start, end, maxInterval)
  }

  function Cut(start: int, end: int, maxInterval: int): seq<Chunk>
    requires maxInterval >= 1
    decreases end - start
  {
    if start + maxInterval - 1 >= end then [(start, end)]
    else [(start, start + maxInterval - 1)] + Cut(start + maxInterval, end, maxInterval)
  }

  /** With a maximum below 1 the loop would not end. */
  method BreakdownInterval(start: int, end: int, maxInterval: int) returns (result: seq<Chunk>)
    requires maxInterval >= 1
    ensures result == Breakdown(start, end, maxInterval)
  {
    result := [];
    if end - start <= maxInterval {
      return [(start, end)];
    }
    var currStart := start;
    var currEnd := start + maxInterval - 1;
    while currEnd < end
      invariant currEnd == currStart + maxInterval - 1
      invariant result + Cut(currStart, end, maxInterval) == Cut(start, end, maxInterval)
      decreases end - currEnd
    {
      AppendAssoc(result, [(currStart, currEnd)], Cut(currStart + maxInterval, end, maxInterval));
      result := result + [(currStart, currEnd)];
      currStart := currEnd + 1;
      currEnd := currStart + maxInterval - 1;
    }
    result := result + [(currStart, end)];
  }

  /** The intervals of a list: `start` to `end` are consecutive blocks already seen. */
  function IntervalsFrom(start: int, end: int, rest: seq<int>, maxInterval: int): seq<Chunk>
    requires maxInterval >= 1
    decreases |rest|
  {
    if rest == [] then Breakdown(start, end, maxInterval)
    else if rest[0] - end == 1 then IntervalsFrom(start, rest[0], rest[1..], maxInterval)
    else Breakdown(start, end, maxInterval) + IntervalsFrom(rest[0], rest[0], rest[1..], maxInterval)
  }

  function Intervals(data: seq<int>, maxInterval: int): seq<Chunk>
    requires maxInterval >= 1
  {
    if data == [] then [] else IntervalsFrom(data[0], data[0], data[1..], maxInterval)
  }

  lemma IntervalsStep(before: seq<Chunk>, start: int, end: int, data: seq<int>, i: nat, maxInterval: int)
    requires maxInterval >= 1 && i < |data|
    ensures before + IntervalsFrom(start, end, data[i..], maxInterval) ==
            if data[i] - end == 1 then before + IntervalsFrom(start, data[i], data[i + 1..], maxInterval)
            else before + Breakdown(start, end, maxInterval)
                 + IntervalsFrom(data[i], data[i], data[i + 1..], maxInterval)
  {
    assert data[i..][1..] == data[i + 1..];
    AppendAssoc(before, Breakdown(start, end, maxInterval),
                IntervalsFrom(data[i], data[i], data[i + 1..], maxInterval));
  }

  method MakeIntervals(data: seq<int>, maxInterval: int) returns (intervals: seq<Chunk>)
    requires maxInterval >= 1
    ensures intervals == Intervals(data, maxInterval)
  {
    intervals := [];
    if |data| == 0 {
      return;
    }
    var start, end := data[0], data[0];
    for i := 1 to |data|
      invariant end == data[i - 1]
      invariant intervals + IntervalsFrom(start, end, data[i..], maxInterval) == Intervals(data, maxInterval)
    {
      IntervalsStep(intervals, start, end, data, i, maxInterval);
      if data[i] - data[i - 1] == 1 {
        end := data[i];
      } else {
        var more := BreakdownInterval(start, end, maxInterval);
        intervals := intervals + more;
        start, end := data[i], data[i];
      }
    }
    var last := BreakdownInterval(start, end, maxInterval);
    intervals := intervals + last;
  }

  // ----- What the intervals cover -----

  predicate Fits(c: Chunk, maxInterval: int) {
    c.0 <= c.1 <= c.0 + maxInterval
  }

  predicate AllFit(cs: seq<Chunk>, maxInterval: int) {
    forall i :: 0 <= i < |cs| ==> Fits(cs[i], maxInterval)
  }

  lemma {:induction false} EnumerateAppend(a: seq<Chunk>, b: seq<Chunk>)
    ensures Enumerate(a + b) == Enumerate(a) + Enumerate(b)
  {
    if a == [] {
      assert a + b == b;
    } else {
      assert (a + b)[0] == a[0] && (a + b)[1..] == a[1..] + b;
      EnumerateAppend(a[1..], b);
      AppendAssoc(Range(a[0].0, a[0].1), Enumerate(a[1..]), Enumerate(b));
    }
  }

  lemma EnumerateOne(c: Chunk)
    ensures Enumerate([c]) == Range(c.0, c.1)
  {
    assert [c][1..] == [];
  }

  lemma FitFirst(c: Chunk, rest: seq<Chunk>, maxInterval: int)
    requires Fits(c, maxInterval) && AllFit(rest, maxInterval)
    ensures AllFit([c] + rest, maxInterval)
    ensures Enumerate([c] + rest) == Range(c.0, c.1) + Enumerate(rest)
  {
    assert ([c] + rest)[1..] == rest;
  }

  lemma {:induction false} CutCovers(start: int, end: int, maxInterval: int)
    requires maxInterval >= 1 && start <= end
    ensures Enumerate(Cut(start, end, maxInterval)) == Range(start, end)
    ensures AllFit(Cut(start, end, maxInterval), maxInterval)
    decreases end - start
  {
    if start + maxInterval - 1 >= end {
      EnumerateOne((start, end));
    } else {
      CutCovers(start + maxInterval, end, maxInterval);
      FitFirst((start, start + maxInterval - 1), Cut(start + maxInterval, end, maxInterval), maxInterval);
      RangeSplit(start, start + maxInterval - 1, end);
    }
  }

  lemma BreakdownCovers(start: int, end: int, maxInterval: int)
    requires maxInterval >= 1 && start <= end
    ensures Enumerate(Breakdown(start, end, maxInterval)) == Range(start, end)
    ensures AllFit(Breakdown(start, end, maxInterval), maxInterval)
  {
    if end - start <= maxInterval {
      EnumerateOne((start, end));
    } else {
      CutCovers(start, end, maxInterval);
    }
  }

  lemma {:induction false} IntervalsFromCover(start: int, end: int, rest: seq<int>, maxInterval: int)
    requires maxInterval >= 1 && start <= end
    ensures Enumerate(IntervalsFrom(start, end, rest, maxInterval)) == Range(start, end) + rest
    ensures AllFit(IntervalsFrom(start, end, rest, maxInterval), maxInterval)
    decreases |rest|
  {
    if rest == [] {
      BreakdownCovers(start, end, maxInterval);
    } else {
      assert rest == [rest[0]] + rest[1..];
      if rest[0] - end == 1 {
        IntervalsFromCover(start, rest[0], rest[1..], maxInterval);
        RangeSplit(start, end, rest[0]);
        AppendAssoc(Range(start, end), [rest[0]], rest[1..]);
      } else {
        BreakdownCovers(start, end, maxInterval);
        IntervalsFromCover(rest[0], rest[0], rest[1..], maxInterval);
        EnumerateAppend(Breakdown(start, end, maxInterval), IntervalsFrom(rest[0], rest[0], rest[1..], maxInterval));
      }
    }
  }

  /** The intervals list the given blocks, each once and in the given order, in pieces of at most maxInterval + 1. */
  lemma IntervalsCover(data: seq<int>, maxInterval: int)
    requires maxInterval >= 1
    ensures Enumerate(Intervals(data, maxInterval)) == data
    ensures AllFit(Intervals(data, maxInterval), maxInterval)
  {
    if data != [] {
      assert data == [data[0]] + data[1..];
      IntervalsFromCover(data[0], data[0], data[1..], maxInterval);
    }
  }

  predicate Ascending(data: seq<int>) {
    forall i, j :: 0 <= i < j < |data| ==> data[i] < data[j]
  }

  predicate AscendingIntervals(cs: seq<Chunk>) {
    && (forall i :: 0 <= i < |cs| ==> cs[i].0 <= cs[i].1)
    && forall i, j :: 0 <= i < j < |cs| ==> cs[i].1 < cs[j].0
  }

  lemma EnumerateMember(cs: seq<Chunk>, k: nat, x: int)
    requires k < |cs| && cs[k].0 <= x <= cs[k].1
    ensures x in Enumerate(cs)
  {
    if k == 0 {
      assert Range(cs[0].0, cs[0].1)[x - cs[0].0] == x;
    } else {
      EnumerateMember(cs[1..], k - 1, x);
    }
  }

  /** Intervals that list ascending blocks are ascending themselves. */
  lemma {:induction false} AscendingData(cs: seq<Chunk>, maxInterval: int)
    requires AllFit(cs, maxInterval) && Ascending(Enumerate(cs))
    ensures AscendingIntervals(cs)
    decreases |cs|
  {
    if cs != [] {
      var first, rest := Range(cs[0].0, cs[0].1), Enumerate(cs[1..]);
      assert Fits(cs[0], maxInterval);
      forall i, j | 0 <= i < j < |rest| ensures rest[i] < rest[j] {
        assert Enumerate(cs)[|first| + i] == rest[i] && Enumerate(cs)[|first| + j] == rest[j];
      }
      assert AllFit(cs[1..], maxInterval);
      AscendingData(cs[1..], maxInterval);
      forall j | 0 < j < |cs| ensures cs[0].1 < cs[j].0 {
        assert Fits(cs[j], maxInterval);
        EnumerateMember(cs[1..], j - 1, cs[j].0);
        var k :| 0 <= k < |rest| && rest[k] == cs[j].0;
        assert Enumerate(cs)[|first| - 1] == cs[0].1 && Enumerate(cs)[|first| + k] == cs[j].0;
      }
      forall i, j | 0 <= i < j < |cs| ensures cs[i].1 < cs[j].0 {
        if i > 0 { assert cs[1..][i - 1] == cs[i] && cs[1..][j - 1] == cs[j]; }
      }
    }
  }

  // ----- Going through the list -----

  /** What is left of the list once the blocks up to `last` are exported. */
  function Shifted(list: seq<Chunk>, last: int): seq<Chunk> {
    if list != [] && last >= list[0].1 then Shifted(list[1..], last) else list
  }

  /** The intervals still to visit from a position; -1 is the position of a fresh start. */
  function Remaining(list: seq<Chunk>, last: int): seq<Chunk> {
    if last == -1 then list else Shifted(list, last)
  }

  /** An ascending list of intervals of block numbers. */
  predicate Listed(list: seq<Chunk>) {
    AscendingIntervals(list) && forall i :: 0 <= i < |list| ==> list[i].0 >= 0
  }

  lemma ListedRest(list: seq<Chunk>)
    requires Listed(list) && list != []
    ensures Listed(list[1..])
    ensures Shifted(list[1..], list[0].1) == list[1..]
    ensures list[0].1 >= 0
  {
    var rest := list[1..];
    assert list[0].0 <= list[0].1;
    forall i | 0 <= i < |rest| ensures 0 <= rest[i].0 <= rest[i].1 { assert 0 <= list[i + 1].0 <= list[i + 1].1; }
    forall i, j | 0 <= i < j < |rest| ensures rest[i].1 < rest[j].0 { assert list[i + 1].1 < list[j + 1].0; }
    if rest != [] {
      assert list[0].1 < list[1].0 <= list[1].1;
    }
  }

  lemma {:induction false} RemainingListed(list: seq<Chunk>, last: int)
    requires Listed(list)
    ensures Listed(Remaining(list, last))
  {
    if last != -1 && list != [] && last >= list[0].1 {
      ListedRest(list);
      RemainingListed(list[1..], last);
    }
  }

  /** Resuming from the end of an interval continues with the next one. */
  lemma {:induction false} RemainingAfter(list: seq<Chunk>, k: nat)
    requires Listed(list) && k < |list|
    ensures Remaining(list, list[k].1) == list[k + 1..]
  {
    ListedRest(list);
    if k > 0 {
      assert list[0].1 < list[k].0 <= list[k].1;
      RemainingAfter(list[1..], k - 1);
      assert list[1..][k - 1] == list[k] && list[1..][k..] == list[k + 1..];
    }
  }

  /** Visiting the first interval of the list leaves the rest to visit. */
  lemma VisitStep(visited: seq<Chunk>, list: seq<Chunk>)
    requires Listed(list) && list != []
    ensures visited + list == visited + [list[0]] + Remaining(list, list[0].1)
    ensures Listed(Remaining(list, list[0].1)) && |Remaining(list, list[0].1)| < |list|
  {
    ListedRest(list);
    assert Remaining(list, list[0].1) == list[1..];
  }

  /**
   * From a fresh start every interval of the list is visited once and in order; from the saved end of the
   * k-th one, exactly those after it are.
   */
  lemma VisitedIntervals(data: seq<int>, maxInterval: int, k: nat)
    requires maxInterval >= 1 && Ascending(data) && (data != [] ==> data[0] >= 0)
    requires k < |Intervals(data, maxInterval)|
    ensures var list := Intervals(data, maxInterval);
            Listed(list) && Remaining(list, -1) == list && Remaining(list, list[k].1) == list[k + 1..]
  {
    var list := Intervals(data, maxInterval);
    IntervalsCover(data, maxInterval);
    AscendingData(list, maxInterval);
    forall i | 0 <= i < |list| ensures list[i].0 >= 0 {
      assert Fits(list[i], maxInterval);
      EnumerateMember(list, i, list[i].0);
      var j :| 0 <= j < |data| && data[j] == list[i].0;
      assert j > 0 ==> data[0] < data[j];
    }
    RemainingAfter(list, k);
  }
}

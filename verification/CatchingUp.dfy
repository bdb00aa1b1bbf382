/** How fast work calls catch up with the confirmed block: eth/lib/next_interval_calculator.ts. */
module CatchingUp {
  import opened Common
  import opened Chunks
  import opened Erc20Workers
  import opened ListConfirmations
  import P = ExportProtocol

  /** The position after some work calls, the node offering nothing newer than the confirmed block. */
  function PositionAfter(c: P.Config, confirmed: int, last: int, calls: nat): int {
    if calls == 0 then last
    else
      var idle := P.Init().(proc := P.Idle(confirmed, PositionAfter(c, confirmed, last, calls - 1)));
      P.Next(c, idle, P.Work(confirmed + c.confirmations)).value.proc.lastExported
  }

  /** Each call takes the position on by an interval, until it is at the confirmed block. */
  lemma {:induction false} CallsAdvance(c: P.Config, confirmed: int, last: int, calls: nat)
    requires c.blockInterval >= 1 && last <= confirmed
    ensures PositionAfter(c, confirmed, last, calls) == Min(last + calls * c.blockInterval, confirmed)
  {
    if calls > 0 {
      CallsAdvance(c, confirmed, last, calls - 1);
      assert calls * c.blockInterval == (calls - 1) * c.blockInterval + c.blockInterval;
    }
  }

  lemma ReachedIff(distance: nat, size: int, calls: nat)
    requires size >= 1
    ensures calls * size >= distance <==> calls >= CeilDiv(distance, size)
  {
    CeilIs(distance, size);
    var n := CeilDiv(distance, size);
    if calls >= n {
      Multiples(n, calls, size);
    } else {
      Multiples(calls, n - 1, size);
    }
  }

  lemma Multiples(a: int, b: int, size: int)
    requires a <= b && size >= 1
    ensures a * size <= b * size
  {
    assert b * size == a * size + (b - a) * size;
  }

  lemma CeilIs(distance: nat, size: int)
    requires size >= 1
    ensures (CeilDiv(distance, size) - 1) * size < distance <= CeilDiv(distance, size) * size
  {
    var q := (distance + size - 1) / size;
    assert distance + size - 1 == q * size + (distance + size - 1) % size;
    assert (q - 1) * size == q * size - size;
  }

  /** So it takes as many calls as the blocks to catch up with have intervals, the last one rounded up. */
  lemma CaughtUpIff(c: P.Config, confirmed: int, last: int, calls: nat)
    requires c.blockInterval >= 1 && last <= confirmed
    ensures PositionAfter(c, confirmed, last, calls) == confirmed
            <==> calls >= CeilDiv(confirmed - last, c.blockInterval)
  {
    CallsAdvance(c, confirmed, last, calls);
    ReachedIff(confirmed - last, c.blockInterval, calls);
  }

  // ----- The ERC20 worker -----

  /** The interval of a call, some calls on. */
  function IntervalAt(s: Settings, last: int, confirmed: int, i: nat): Chunk {
    (last + i * s.blockInterval + 1, Min(last + (i + 1) * s.blockInterval, confirmed))
  }

  ghost predicate NothingNewer(offers: seq<int>, confirmed: int) {
    forall i :: 0 <= i < |offers| ==> offers[i] <= confirmed
  }

  /** The calls export one interval after the other, until they have reached the confirmed block. */
  ghost predicate Follow(s: Settings, last: int, confirmed: int, calls: nat, visits: seq<Visit>) {
    && |visits| <= calls
    && (|visits| < calls ==> |visits| * s.blockInterval >= confirmed - last)
    && (|visits| > 0 ==> (|visits| - 1) * s.blockInterval < confirmed - last)
    && forall i :: 0 <= i < |visits| ==> visits[i] == Visit(IntervalAt(s, last, confirmed, i), confirmed)
  }

  lemma FollowFirst(s: Settings, last: int, confirmed: int, calls: nat, more: seq<Visit>)
    requires s.blockInterval >= 1 && last < confirmed
    requires Follow(s, Min(last + s.blockInterval, confirmed), confirmed, calls, more)
    ensures Follow(s, last, confirmed, calls + 1, [Visit(IntervalAt(s, last, confirmed, 0), confirmed)] + more)
  {
    var n, all := s.blockInterval, [Visit(IntervalAt(s, last, confirmed, 0), confirmed)] + more;
    assert |more| * n == (|more| - 1) * n + n && (|more| + 1) * n == |more| * n + n;
    if last + n >= confirmed {
      assert |more| > 0 ==> (|more| - 1) * n >= 0;
    }
    forall i | 1 <= i < |all| ensures all[i] == Visit(IntervalAt(s, last, confirmed, i), confirmed) {
      assert all[i] == more[i - 1];
      assert i * n == (i - 1) * n + n && (i + 1) * n == i * n + n;
    }
  }

  lemma VisitsStep(s: Settings, list: seq<Chunk>, last: int, confirmed: int, offers: seq<int>)
    requires !s.exportBlocksList && last <= confirmed && offers != [] && offers[0] <= confirmed
    ensures Visits(s, list, last, confirmed, offers) ==
            if last == confirmed then Visits(s, list, last, confirmed, offers[1..])
            else var next := Min(last + s.blockInterval, confirmed);
                 [Visit((last + 1, next), confirmed)] + Visits(s, list, next, confirmed, offers[1..])
  {
  }

  lemma {:induction false} VisitsFollow(s: Settings, list: seq<Chunk>, last: int, confirmed: int, offers: seq<int>)
    requires s.blockInterval >= 1 && !s.exportBlocksList && last <= confirmed && NothingNewer(offers, confirmed)
    ensures Follow(s, last, confirmed, |offers|, Visits(s, list, last, confirmed, offers))
    decreases |offers|
  {
    if offers != [] {
      VisitsStep(s, list, last, confirmed, offers);
      var next := Min(last + s.blockInterval, confirmed);
      VisitsFollow(s, list, next, confirmed, offers[1..]);
      if last < confirmed {
        FollowFirst(s, last, confirmed, |offers| - 1, Visits(s, list, next, confirmed, offers[1..]));
      }
    }
  }

  /**
   * While the node offers nothing newer, the work calls export whole intervals one after the other up to the
   * confirmed block, as many as the blocks to catch up with take, and no more.
   */
  lemma VisitsCatchUp(s: Settings, list: seq<Chunk>, last: int, confirmed: int, offers: seq<int>)
    requires s.blockInterval >= 1 && !s.exportBlocksList && last <= confirmed && NothingNewer(offers, confirmed)
    ensures var visits := Visits(s, list, last, confirmed, offers);
            && |visits| == Min(|offers|, CeilDiv(confirmed - last, s.blockInterval))
            && forall i :: 0 <= i < |visits| ==> visits[i] == Visit(IntervalAt(s, last, confirmed, i), confirmed)
  {
    var visits := Visits(s, list, last, confirmed, offers);
    VisitsFollow(s, list, last, confirmed, offers);
    ReachedIff(confirmed - last, s.blockInterval, |visits|);
    if |visits| > 0 {
      ReachedIff(confirmed - last, s.blockInterval, |visits| - 1);
    }
    CeilNotNegative(confirmed - last, s.blockInterval);
  }

  lemma CeilNotNegative(distance: nat, size: int)
    requires size >= 1
    ensures CeilDiv(distance, size) >= 0
  {
  }
}

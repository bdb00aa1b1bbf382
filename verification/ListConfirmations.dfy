/** With a list of blocks the ERC20 worker exports whole intervals of the list: when that exports unconfirmed blocks. */
module ListConfirmations {
  import opened Common
  import opened Chunks
  import opened BlocksList
  import opened Erc20Workers

  /** An interval a call exported, and the worker's confirmed block at the time. */
  datatype Visit = Visit(interval: Chunk, confirmed: int)

  predicate Early(v: Visit) {
    v.confirmed < v.interval.1
  }

  ghost predicate NoneEarly(visits: seq<Visit>) {
    forall i :: 0 <= i < |visits| ==> !Early(visits[i])
  }

  /** What a series of work calls exports, the node offering a confirmed block at each. */
  function Visits(s: Settings, list: seq<Chunk>, last: int, confirmed: int, offers: seq<int>): seq<Visit>
    decreases |offers|
  {
    if offers == [] then []
    else
      var (now, rest) := Analyzed(s, list, last, confirmed, offers[0]);
      match Due(s, list, last, confirmed, offers[0])
      case None => Visits(s, rest, last, now, offers[1..])
      case Some(interval) => [Visit(interval, now)] + Visits(s, rest, interval.1, now, offers[1..])
  }

  lemma NoneEarlyFirst(v: Visit, more: seq<Visit>)
    ensures NoneEarly([v] + more) <==> !Early(v) && NoneEarly(more)
  {
    var all := [v] + more;
    assert all[0] == v;
    assert forall i :: 0 <= i < |more| ==> all[i + 1] == more[i];
  }

  /** What is left of the list at the position, which lies before the end of all that is left. */
  ghost predicate Shown(list: seq<Chunk>, last: int, rest: seq<Chunk>) {
    Listed(rest) && Remaining(list, last) == rest && (rest != [] ==> last < rest[0].1)
  }

  lemma {:induction false} ShiftedAhead(list: seq<Chunk>, last: int)
    ensures Shifted(list, last) != [] ==> last < Shifted(list, last)[0].1
  {
    if list != [] && last >= list[0].1 {
      ShiftedAhead(list[1..], last);
    }
  }

  lemma ShownAt(list: seq<Chunk>, last: int)
    requires Listed(list)
    ensures Shown(list, last, Remaining(list, last))
  {
    RemainingListed(list, last);
    ShiftedAhead(list, last);
    if last == -1 && list != [] {
      ListedRest(list);
    }
  }

  lemma ShownNext(rest: seq<Chunk>)
    requires Listed(rest) && rest != []
    ensures Shown(rest, rest[0].1, rest[1..])
  {
    ListedRest(rest);
    ShownAt(rest, rest[0].1);
  }

  // ----- While the node offers nothing newer -----

  ghost predicate NothingNewer(offers: seq<int>, confirmed: int) {
    forall i :: 0 <= i < |offers| ==> offers[i] <= confirmed
  }

  /** The position before interval i of the rest. */
  function Before(rest: seq<Chunk>, last: int, i: nat): int
    requires i < |rest|
  {
    if i == 0 then last else rest[i - 1].1
  }

  /** The confirmed block lies inside interval i, or between it and the one before. */
  ghost predicate Straddles(rest: seq<Chunk>, last: int, confirmed: int, i: nat) {
    i < |rest| && Before(rest, last, i) < confirmed < rest[i].1
  }

  ghost predicate StaysConfirmed(s: Settings, list: seq<Chunk>, last: int, confirmed: int) {
    forall offers :: NothingNewer(offers, confirmed) ==> NoneEarly(Visits(s, list, last, confirmed, offers))
  }

  lemma StraddlesNext(rest: seq<Chunk>, last: int, confirmed: int)
    requires Listed(rest) && rest != [] && last < confirmed
    ensures (exists i :: Straddles(rest, last, confirmed, i)) <==>
            confirmed < rest[0].1 || exists i :: Straddles(rest[1..], rest[0].1, confirmed, i)
  {
    if confirmed < rest[0].1 {
      assert Straddles(rest, last, confirmed, 0);
    }
    if i: nat :| Straddles(rest[1..], rest[0].1, confirmed, i) {
      assert rest[1..][i] == rest[i + 1] && Before(rest[1..], rest[0].1, i) == Before(rest, last, i + 1);
      assert Straddles(rest, last, confirmed, i + 1);
    }
    if i: nat :| Straddles(rest, last, confirmed, i) && confirmed >= rest[0].1 {
      assert Straddles(rest[1..], rest[0].1, confirmed, i - 1);
    }
  }

  /** One call while the position is before the confirmed block. */
  lemma VisitFirst(s: Settings, list: seq<Chunk>, last: int, confirmed: int, rest: seq<Chunk>, offers: seq<int>)
    requires s.exportBlocksList && Shown(list, last, rest) && rest != [] && last < confirmed && offers != []
    ensures Visits(s, list, last, confirmed, offers)
         == [Visit(rest[0], confirmed)] + Visits(s, rest, rest[0].1, confirmed, offers[1..])
  {
  }

  lemma {:induction false} NothingStraddled(s: Settings, list: seq<Chunk>, last: int, confirmed: int, rest: seq<Chunk>,
                                            offers: seq<int>)
    requires s.exportBlocksList && Shown(list, last, rest) && NothingNewer(offers, confirmed)
    requires !exists i :: Straddles(rest, last, confirmed, i)
    ensures NoneEarly(Visits(s, list, last, confirmed, offers))
    decreases |offers|
  {
    if offers != [] {
      if last >= confirmed {
        NothingStraddled(s, list, last, confirmed, rest, offers[1..]);
      } else if rest == [] {
        NothingStraddled(s, rest, last, confirmed, rest, offers[1..]);
      } else {
        StraddlesNext(rest, last, confirmed);
        ShownNext(rest);
        NothingStraddled(s, rest, rest[0].1, confirmed, rest[1..], offers[1..]);
        VisitFirst(s, list, last, confirmed, rest, offers);
        NoneEarlyFirst(Visit(rest[0], confirmed), Visits(s, rest, rest[0].1, confirmed, offers[1..]));
      }
    }
  }

  lemma StraddledIsAhead(list: seq<Chunk>, last: int, confirmed: int, rest: seq<Chunk>)
    requires Shown(list, last, rest) && exists i :: Straddles(rest, last, confirmed, i)
    ensures rest != [] && last < confirmed
  {
    var i :| Straddles(rest, last, confirmed, i);
    if i > 0 {
      assert rest[0].1 <= rest[i - 1].1 by {
        if i - 1 > 0 { assert rest[0].1 < rest[i - 1].0 <= rest[i - 1].1; }
      }
    }
  }

  lemma {:induction false} StraddledIsVisited(s: Settings, list: seq<Chunk>, last: int, confirmed: int,
                                              rest: seq<Chunk>)
    returns (offers: seq<int>)
    requires s.exportBlocksList && Shown(list, last, rest) && exists i :: Straddles(rest, last, confirmed, i)
    ensures NothingNewer(offers, confirmed) && !NoneEarly(Visits(s, list, last, confirmed, offers))
    decreases |rest|
  {
    StraddledIsAhead(list, last, confirmed, rest);
    StraddlesNext(rest, last, confirmed);
    var later := [];
    if confirmed >= rest[0].1 {
      ShownNext(rest);
      later := StraddledIsVisited(s, rest, rest[0].1, confirmed, rest[1..]);
    }
    offers := [confirmed] + later;
    assert offers[1..] == later;
    VisitFirst(s, list, last, confirmed, rest, offers);
    NoneEarlyFirst(Visit(rest[0], confirmed), Visits(s, rest, rest[0].1, confirmed, later));
  }

  /**
   * As long as the node offers nothing newer, every exported interval is confirmed to its end exactly when the
   * confirmed block straddles none of the intervals that are left.
   */
  lemma StaysConfirmedIff(s: Settings, list: seq<Chunk>, last: int, confirmed: int)
    requires s.exportBlocksList && Listed(list)
    ensures StaysConfirmed(s, list, last, confirmed) <==>
            !exists i :: Straddles(Remaining(list, last), last, confirmed, i)
  {
    var rest := Remaining(list, last);
    ShownAt(list, last);
    if exists i :: Straddles(rest, last, confirmed, i) {
      var offers := StraddledIsVisited(s, list, last, confirmed, rest);
    } else {
      forall offers | NothingNewer(offers, confirmed) ensures NoneEarly(Visits(s, list, last, confirmed, offers)) {
        NothingStraddled(s, list, last, confirmed, rest, offers);
      }
    }
  }

  // ----- Whatever the node offers -----

  /** The least the confirmed block can be when the next interval is exported. */
  function Least(last: int, confirmed: int): int {
    if last < confirmed then confirmed else confirmed + 1
  }

  /** Each interval ends at most at the least confirmed block it can be exported with. */
  predicate AlwaysReached(rest: seq<Chunk>, last: int, confirmed: int) {
    rest == [] || (rest[0].1 <= Least(last, confirmed) && AlwaysReached(rest[1..], rest[0].1, Least(last, confirmed)))
  }

  ghost predicate NeverEarly(s: Settings, list: seq<Chunk>, last: int, confirmed: int) {
    forall offers :: NoneEarly(Visits(s, list, last, confirmed, offers))
  }

  lemma {:induction false} ReachedByMore(rest: seq<Chunk>, last: int, confirmed: int, more: int)
    requires AlwaysReached(rest, last, confirmed) && confirmed <= more
    ensures AlwaysReached(rest, last, more)
  {
    if rest != [] {
      ReachedByMore(rest[1..], rest[0].1, Least(last, confirmed), Least(last, more));
    }
  }

  /** What one call does: it waits, finds nothing left, or exports the next interval. */
  lemma OneCall(s: Settings, list: seq<Chunk>, last: int, confirmed: int, rest: seq<Chunk>, offers: seq<int>)
    requires s.exportBlocksList && Shown(list, last, rest) && offers != []
    ensures var visits := Visits(s, list, last, confirmed, offers);
            var now := if last < confirmed then confirmed else Max(confirmed, offers[0]);
            if last >= confirmed >= offers[0] then visits == Visits(s, list, last, confirmed, offers[1..])
            else if rest == [] then visits == Visits(s, rest, last, now, offers[1..])
            else visits == [Visit(rest[0], now)] + Visits(s, rest, rest[0].1, now, offers[1..])
  {
  }

  lemma {:induction false} ReachedIsNeverEarly(s: Settings, list: seq<Chunk>, last: int, confirmed: int,
                                               rest: seq<Chunk>,
                                               offers: seq<int>)
    requires s.exportBlocksList && Shown(list, last, rest) && AlwaysReached(rest, last, confirmed)
    ensures NoneEarly(Visits(s, list, last, confirmed, offers))
    decreases |offers|
  {
    if offers != [] {
      var now := if last < confirmed then confirmed else Max(confirmed, offers[0]);
      OneCall(s, list, last, confirmed, rest, offers);
      if last >= confirmed >= offers[0] {
        ReachedIsNeverEarly(s, list, last, confirmed, rest, offers[1..]);
      } else if rest == [] {
        ReachedIsNeverEarly(s, rest, last, now, rest, offers[1..]);
      } else {
        ShownNext(rest);
        ReachedByMore(rest[1..], rest[0].1, Least(last, confirmed), now);
        ReachedIsNeverEarly(s, rest, rest[0].1, now, rest[1..], offers[1..]);
        NoneEarlyFirst(Visit(rest[0], now), Visits(s, rest, rest[0].1, now, offers[1..]));
      }
    }
  }

  lemma {:induction false} UnreachedIsEarly(s: Settings, list: seq<Chunk>, last: int, confirmed: int, rest: seq<Chunk>)
    returns (offers: seq<int>)
    requires s.exportBlocksList && Shown(list, last, rest) && !AlwaysReached(rest, last, confirmed)
    ensures !NoneEarly(Visits(s, list, last, confirmed, offers))
    decreases |rest|
  {
    var now, later := Least(last, confirmed), [];
    if rest[0].1 <= now {
      ShownNext(rest);
      later := UnreachedIsEarly(s, rest, rest[0].1, now, rest[1..]);
    }
    offers := [confirmed + 1] + later;
    assert offers[1..] == later;
    OneCall(s, list, last, confirmed, rest, offers);
    NoneEarlyFirst(Visit(rest[0], now), Visits(s, rest, rest[0].1, now, later));
  }

  /**
   * Whatever the node offers at each call, every exported interval is confirmed to its end exactly when each ends
   * at most where a confirmed block that only rises when it must already is.
   */
  lemma NeverEarlyIff(s: Settings, list: seq<Chunk>, last: int, confirmed: int)
    requires s.exportBlocksList && Listed(list)
    ensures NeverEarly(s, list, last, confirmed) <==> AlwaysReached(Remaining(list, last), last, confirmed)
  {
    var rest := Remaining(list, last);
    ShownAt(list, last);
    if AlwaysReached(rest, last, confirmed) {
      forall offers ensures NoneEarly(Visits(s, list, last, confirmed, offers)) {
        ReachedIsNeverEarly(s, list, last, confirmed, rest, offers);
      }
    } else {
      var offers := UnreachedIsEarly(s, list, last, confirmed, rest);
    }
  }

  /** A fresh worker at confirmed block 5 exports blocks 1 to 10 at once. */
  lemma TenBlocksAtFive(s: Settings)
    requires s.exportBlocksList
    ensures Visits(s, [(1, 10)], -1, 5, [5]) == [Visit((1, 10), 5)]
    ensures Early(Visit((1, 10), 5)) && !StaysConfirmed(s, [(1, 10)], -1, 5)
  {
    var offers := [5];
    assert offers[1..] == [];
    assert NothingNewer(offers, 5);
    var visits := Visits(s, [(1, 10)], -1, 5, offers);
    assert Remaining([(1, 10)], -1) == [(1, 10)];
    assert visits[0] == Visit((1, 10), 5);
  }
}

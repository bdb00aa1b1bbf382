/** Which slot stands for a UTC day, and in which order days are exported: eth_beacon/eth_beacon_worker.ts. */
module BeaconDays {
  const SECONDS_PER_SLOT := 12
  const SECONDS_PER_DAY := 86400

  function SlotToTimestamp(genesisTime: int, slot: int): int {
    genesisTime + slot * SECONDS_PER_SLOT
  }

  /** The remainder with the sign of the dividend. */
  function Remainder(a: int, b: int): int
    requires b > 0
  {
    if a >= 0 then a % b else -((-a) % b)
  }

  /** What is left of a after taking b as often as it goes, towards zero. */
  lemma RemainderIs(a: int, b: int) returns (q: int)
    requires b > 0
    ensures a == b * q + Remainder(a, b) && -b < Remainder(a, b) < b
    ensures a >= 0 ==> Remainder(a, b) >= 0
    ensures a <= 0 ==> Remainder(a, b) <= 0
  {
    q := if a >= 0 then a / b else -((-a) / b);
  }

  function DayEnd(dayIndex: int): int {
    dayIndex * SECONDS_PER_DAY + SECONDS_PER_DAY - 1
  }

  function LastUtcDaySlot(genesisTime: int, dayIndex: int): int {
    var slot := (DayEnd(dayIndex) - genesisTime) / SECONDS_PER_SLOT;
    slot - Remainder(slot, 32)
  }

  function DayOf(timestamp: int): int {
    timestamp / SECONDS_PER_DAY
  }

  function GenesisDay(genesisTime: int): int {
    DayOf(genesisTime)
  }

  function NextDayIndex(genesisTime: int, lastExportedBlock: int): int {
    if lastExportedBlock == 0 then GenesisDay(genesisTime)
    else DayOf(SlotToTimestamp(genesisTime, lastExportedBlock)) + 1
  }

  lemma DivisionBounds(a: int, b: int)
    requires b > 0
    ensures b * (a / b) <= a < b * (a / b) + b
  {
  }

  lemma DayIsUnique(timestamp: int, dayIndex: int)
    ensures DayOf(timestamp) == dayIndex <==> DayEnd(dayIndex) - SECONDS_PER_DAY < timestamp <= DayEnd(dayIndex)
  {
  }

  lemma RoundedDown(slot: int)
    requires slot >= 0
    ensures var s := slot - Remainder(slot, 32);
            s % 32 == 0 && 0 <= s <= slot < s + 32
  {
  }

  /** The first multiple of 32 after an epoch start is 32 slots on. */
  lemma EpochsAreApart(s: int, t: int)
    requires s % 32 == 0 && t % 32 == 0 && s < t
    ensures s + 32 <= t
  {
  }

  /**
   * From the genesis day on, the day's slot is the last epoch start whose timestamp is within the day's
   * end, and that timestamp is of the same day.
   */
  lemma DaySlotIsGreatest(genesisTime: int, dayIndex: int)
    requires dayIndex >= GenesisDay(genesisTime)
    ensures var s := LastUtcDaySlot(genesisTime, dayIndex);
            && s >= 0 && s % 32 == 0
            && SlotToTimestamp(genesisTime, s) <= DayEnd(dayIndex)
            && DayOf(SlotToTimestamp(genesisTime, s)) == dayIndex
            && forall t :: t % 32 == 0 && SlotToTimestamp(genesisTime, t) <= DayEnd(dayIndex) ==> t <= s
  {
    var slot := (DayEnd(dayIndex) - genesisTime) / SECONDS_PER_SLOT;
    var s := LastUtcDaySlot(genesisTime, dayIndex);
    DivisionBounds(genesisTime, SECONDS_PER_DAY);
    DivisionBounds(DayEnd(dayIndex) - genesisTime, SECONDS_PER_SLOT);
    RoundedDown(slot);
    DayIsUnique(SlotToTimestamp(genesisTime, s), dayIndex);
    DayIsUnique(genesisTime, GenesisDay(genesisTime));
    forall t | t % 32 == 0 && SlotToTimestamp(genesisTime, t) <= DayEnd(dayIndex) ensures t <= s {
      if t > s {
        EpochsAreApart(s, t);
      }
    }
  }

  /** The slot of a day is 0 only when the day is the genesis day and less than an epoch of it is left. */
  lemma DaySlotIsZeroIff(genesisTime: int, dayIndex: int)
    requires dayIndex >= GenesisDay(genesisTime)
    ensures LastUtcDaySlot(genesisTime, dayIndex) == 0 <==>
            dayIndex == GenesisDay(genesisTime) && DayEnd(dayIndex) - genesisTime < 32 * SECONDS_PER_SLOT
  {
    DaySlotIsGreatest(genesisTime, dayIndex);
    DayIsUnique(genesisTime, GenesisDay(genesisTime));
    assert SlotToTimestamp(genesisTime, 32) <= DayEnd(dayIndex) ==> 32 <= LastUtcDaySlot(genesisTime, dayIndex);
  }

  /** After the slot of a day comes the next day, unless that slot is 0: then the genesis day comes again. */
  lemma NextDayFollows(genesisTime: int, dayIndex: int)
    requires dayIndex >= GenesisDay(genesisTime)
    ensures var s := LastUtcDaySlot(genesisTime, dayIndex);
            NextDayIndex(genesisTime, s) == if s == 0 then GenesisDay(genesisTime) else dayIndex + 1
  {
    DaySlotIsGreatest(genesisTime, dayIndex);
  }

  /** The position after `k` more days have been exported. */
  function PositionAfter(genesisTime: int, start: int, k: nat): int {
    if k == 0 then start
    else LastUtcDaySlot(genesisTime, NextDayIndex(genesisTime, PositionAfter(genesisTime, start, k - 1)))
  }

  /** The day exported after `k` others. */
  function DayAfter(genesisTime: int, start: int, k: nat): int {
    NextDayIndex(genesisTime, PositionAfter(genesisTime, start, k))
  }

  /** The genesis day is not the first to export, or an epoch of it is left. */
  predicate FirstDayHasSlot(genesisTime: int, start: int) {
    var day := NextDayIndex(genesisTime, start);
    day > GenesisDay(genesisTime) || DayEnd(day) - genesisTime >= 32 * SECONDS_PER_SLOT
  }

  /** Days are exported one after the other, without skip or repeat. */
  lemma {:induction false} DaysAreConsecutive(genesisTime: int, start: int, k: nat)
    requires NextDayIndex(genesisTime, start) >= GenesisDay(genesisTime) && FirstDayHasSlot(genesisTime, start)
    ensures DayAfter(genesisTime, start, k) == NextDayIndex(genesisTime, start) + k
  {
    if k > 0 {
      DaysAreConsecutive(genesisTime, start, k - 1);
      DaySlotIsZeroIff(genesisTime, DayAfter(genesisTime, start, k - 1));
      NextDayFollows(genesisTime, DayAfter(genesisTime, start, k - 1));
    }
  }

  /** With less than an epoch of the genesis day left, that day is exported for ever. */
  lemma {:induction false} ShortGenesisDayRepeats(genesisTime: int, start: int, k: nat)
    requires NextDayIndex(genesisTime, start) == GenesisDay(genesisTime) && !FirstDayHasSlot(genesisTime, start)
    ensures DayAfter(genesisTime, start, k) == GenesisDay(genesisTime)
  {
    if k > 0 {
      ShortGenesisDayRepeats(genesisTime, start, k - 1);
      DaySlotIsZeroIff(genesisTime, GenesisDay(genesisTime));
      NextDayFollows(genesisTime, GenesisDay(genesisTime));
    }
  }

  /** From the default position, -1, the genesis day is skipped unless genesis is within its first slot. */
  lemma DefaultStartSkipsGenesisDay(genesisTime: int)
    ensures NextDayIndex(genesisTime, -1) ==
            if genesisTime % SECONDS_PER_DAY < SECONDS_PER_SLOT then GenesisDay(genesisTime)
                else GenesisDay(genesisTime) + 1
  {
  }
}

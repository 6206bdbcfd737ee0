/** What the shift resolver guarantees: when it gives no suggestion, the weekend and
    two-shift rules, and for the cyclic patterns the calibration round trip, the bounds of
    the day within a block and periodicity. */
module ShiftProperties {
  import opened Calendar
  import opened Settings
  import opened ShiftResolver

  // ---------------------------------------------------------------------------------------
  // Block scan
  // ---------------------------------------------------------------------------------------

  /** The block covering cycle position `index`, searching from block `k`. */
  function CoveringBlock(blocks: seq<Block>, index: int, k: nat): (m: nat)
    requires k <= |blocks|
    requires Offset(blocks, k) <= index < Offset(blocks, |blocks|)
    ensures k <= m < |blocks|
    ensures Offset(blocks, m) <= index < Offset(blocks, m + 1)
    decreases |blocks| - k
  {
    if k == |blocks| then assert false; k
    else if index < Offset(blocks, k + 1) then k
    else CoveringBlock(blocks, index, k + 1)
  }

  /** The scan stops at the block covering `index` and reports the 1-based day within it. */
  lemma {:induction false} LocateAt(blocks: seq<Block>, index: int, k: nat, m: nat)
    requires k <= m < |blocks|
    requires Offset(blocks, m) <= index < Offset(blocks, m + 1)
    ensures LocateFrom(blocks, index, k) == Some(InBlock(blocks[m].kind, index - Offset(blocks, m) + 1))
    decreases m - k
  {
    if k < m {
      OffsetMonotone(blocks, k + 1, m);
      LocateAt(blocks, index, k + 1, m);
    }
  }

  /** In a well-formed rotation the block holding a shift type is the first one of that type. */
  lemma KindsIdentifyBlocks(rot: Rotation, m: nat)
    requires WellFormed(rot)
    requires m < |rot.blocks|
    ensures FirstOfKind(rot.blocks, rot.blocks[m].kind) == m
  {
  }

  /** Every position in `[0, cycleLength)` lies in a block, at a day within its length. */
  lemma LocateInCycle(rot: Rotation, index: int)
    requires WellFormed(rot)
    requires 0 <= index < rot.cycleLength
    ensures var r := Locate(rot.blocks, index);
      && r.Some? && r.value.InBlock?
      && var m := FirstOfKind(rot.blocks, r.value.kind);
      && m < |rot.blocks|
      && 1 <= r.value.day <= rot.blocks[m].length
      && Offset(rot.blocks, m) + r.value.day - 1 == index
  {
    var m := CoveringBlock(rot.blocks, index, 0);
    LocateAt(rot.blocks, index, 0, m);
    KindsIdentifyBlocks(rot, m);
  }

  // ---------------------------------------------------------------------------------------
  // Cycle position arithmetic
  // ---------------------------------------------------------------------------------------

  /** For a non-negative reference position, the app's double remainder is the floored
      modulo of the reference position moved by the day difference, even when that
      difference is negative. */
  lemma TargetDayIndexIsFloorMod(refDayIndex: int, dayDiff: int, cycleLength: int)
    requires cycleLength > 0
    requires refDayIndex >= 0
    ensures TargetDayIndex(refDayIndex, dayDiff, cycleLength) == (refDayIndex + dayDiff) % cycleLength
    ensures 0 <= TargetDayIndex(refDayIndex, dayDiff, cycleLength) < cycleLength
  {
    var x := refDayIndex + JsRem(dayDiff, cycleLength) + cycleLength;
    assert x > 0;
    assert x == (refDayIndex + dayDiff) + cycleLength * (1 - TruncDiv(dayDiff, cycleLength));
    ModAddMultiple(refDayIndex + dayDiff, 1 - TruncDiv(dayDiff, cycleLength), cycleLength);
  }

  /** With a reference day of at least 1, a cyclic suggestion is the block holding the
      floored-modulo position of the reference position moved by the day difference. */
  lemma CyclicByPosition(rot: Rotation, ref: Day, refType: ShiftType, refDay: int, target: Day)
    requires rot.cycleLength > 0
    requires refDay >= 1
    ensures var refIndex := RefDayIndex(rot.blocks, refType, refDay);
      && refIndex >= 0
      && CyclicShift(rot, ref, refType, refDay, target)
         == Locate(rot.blocks, (refIndex + DayDiff(target, ref)) % rot.cycleLength)
  {
    var refIndex := RefDayIndex(rot.blocks, refType, refDay);
    TargetDayIndexIsFloorMod(refIndex, DayDiff(target, ref), rot.cycleLength);
  }

  // ---------------------------------------------------------------------------------------
  // Properties of the cyclic patterns
  // ---------------------------------------------------------------------------------------

  /** Every suggestion of a cyclic pattern is a day of one of the rotation's blocks, between 1
      and that block's length, and its cycle position is the reference position moved by the
      day difference, modulo the cycle length. */
  lemma CyclicDayWithinBlock(rot: Rotation, ref: Day, refType: ShiftType, refDay: int, target: Day)
    requires WellFormed(rot)
    requires refDay >= 1
    ensures var r := CyclicShift(rot, ref, refType, refDay, target);
      && r.Some? && r.value.InBlock?
      && var m := FirstOfKind(rot.blocks, r.value.kind);
      && m < |rot.blocks|
      && 1 <= r.value.day <= rot.blocks[m].length
      && Offset(rot.blocks, m) + r.value.day - 1
         == (RefDayIndex(rot.blocks, refType, refDay) + DayDiff(target, ref)) % rot.cycleLength
  {
    var refIndex := RefDayIndex(rot.blocks, refType, refDay);
    CyclicByPosition(rot, ref, refType, refDay, target);
    LocateInCycle(rot, (refIndex + DayDiff(target, ref)) % rot.cycleLength);
  }

  /** In a well-formed rotation the reference position lies in the reference shift's block,
      at the reference day, whenever that day is within the block. */
  lemma ReferencePosition(rot: Rotation, t: ShiftType, day: int)
    requires WellFormed(rot)
    requires FirstOfKind(rot.blocks, t) < |rot.blocks|
    requires 1 <= day <= rot.blocks[FirstOfKind(rot.blocks, t)].length
    ensures 0 <= RefDayIndex(rot.blocks, t, day) < rot.cycleLength
    ensures Locate(rot.blocks, RefDayIndex(rot.blocks, t, day)) == Some(InBlock(t, day))
  {
    var k := FirstOfKind(rot.blocks, t);
    OffsetMonotone(rot.blocks, k + 1, |rot.blocks|);
    LocateAt(rot.blocks, RefDayIndex(rot.blocks, t, day), 0, k);
  }

  /** Calibration round trip: the reference date resolves to the reference shift at the
      reference day, whenever the reference shift has a block and the day lies within it. */
  lemma CyclicResolvesReference(rot: Rotation, ref: Day, refType: ShiftType, refDay: int)
    requires WellFormed(rot)
    requires FirstOfKind(rot.blocks, refType) < |rot.blocks|
    requires 1 <= refDay <= rot.blocks[FirstOfKind(rot.blocks, refType)].length
    ensures CyclicShift(rot, ref, refType, refDay, ref) == Some(InBlock(refType, refDay))
  {
    var refIndex := RefDayIndex(rot.blocks, refType, refDay);
    ReferencePosition(rot, refType, refDay);
    CyclicByPosition(rot, ref, refType, refDay, ref);
    SmallMod(refIndex, rot.cycleLength);
    assert refIndex + DayDiff(ref, ref) == refIndex;
  }

  /** Periodicity: dates a whole cycle apart resolve alike, before the reference as well
      as after it. */
  lemma CyclicPeriodic(rot: Rotation, ref: Day, refType: ShiftType, refDay: int, target: Day)
    requires rot.cycleLength > 0
    requires refDay >= 1
    ensures CyclicShift(rot, ref, refType, refDay, target + rot.cycleLength)
            == CyclicShift(rot, ref, refType, refDay, target)
    ensures CyclicShift(rot, ref, refType, refDay, target - rot.cycleLength)
            == CyclicShift(rot, ref, refType, refDay, target)
  {
    var n := rot.cycleLength;
    var x := RefDayIndex(rot.blocks, refType, refDay) + DayDiff(target, ref);
    CyclicByPosition(rot, ref, refType, refDay, target);
    CyclicByPosition(rot, ref, refType, refDay, target + n);
    CyclicByPosition(rot, ref, refType, refDay, target - n);
    ModAddMultiple(x, 1, n);
    ModAddMultiple(x, -1, n);
  }

  /** The settings of a cyclic pattern resolve through its rotation table. */
  lemma ResolveCyclic(s: UserSettings, target: Day)
    requires s.shiftPattern == FourShift || s.shiftPattern == FiveShift
    requires s.referenceDate.Some?
    ensures var rot := PatternTable(s.shiftPattern).value;
      && WellFormed(rot)
      && Resolve(Some(s), target)
         == CyclicShift(rot, s.referenceDate.value, s.referenceShiftType, s.referenceShiftDay, target)
  {
  }

  // ---------------------------------------------------------------------------------------
  // Weekday patterns
  // ---------------------------------------------------------------------------------------

  /** Thursday and Friday are rest days for day workers and two-shift workers, whatever the
      calibration; every other day of a day worker is a morning. */
  lemma DayPatterns(s: UserSettings, target: Day)
    requires s.shiftPattern == DayWorker || s.shiftPattern == TwoShift
    ensures IsWeekend(target) ==> Resolve(Some(s), target) == Some(Weekend)
    ensures IsWeekend(target) ==> Resolve(Some(s), target).value.Kind() == Rest
    ensures s.shiftPattern == DayWorker && !IsWeekend(target) ==> Resolve(Some(s), target).value.Kind() == Morning
  {
  }

  /** Between two dates on the same side of the reference, the app's week count grows by one
      every seven days. */
  lemma WeekDiffStep(ref: Day, target: Day)
    requires target >= ref || target + 7 <= ref
    ensures WeekDiff(target + 7, ref) == WeekDiff(target, ref) + 1
  {
    var a := DayDiff(target, ref);
    assert DayDiff(target + 7, ref) == a + 7;
    if a >= 0 {
      assert (a + 7) / 7 == a / 7 + 1;
    } else {
      assert (-a) / 7 == (-a - 7) / 7 + 1;
    }
  }

  /** The app's two-shift week flips from one week to the next as long as both dates lie on
      the same side of the reference date. */
  lemma AsWrittenFlipsWeekly(ref: Day, refType: ShiftType, target: Day)
    requires target >= ref || target + 7 <= ref
    ensures TwoShiftWeekAsWritten(ref, refType, target + 7) == Flip(TwoShiftWeekAsWritten(ref, refType, target))
  {
    var w := WeekDiff(target, ref);
    WeekDiffStep(ref, target);
    JsRemZeroIff(w, 2);
    JsRemZeroIff(w + 1, 2);
    ModAddMultiple(w, 1, 2);
    assert (w + 1) % 2 != w % 2;
  }

  /** Two-shift workers as the app resolves them: a working day gets the week of the app's
      truncated week count; the 13 days around the reference date have the reference week;
      and on either side of the reference date the shift flips after 7 days and returns
      after 14. */
  lemma TwoShiftAsResolved(s: UserSettings, target: Day)
    requires s.shiftPattern == TwoShift && s.referenceDate.Some?
    requires !IsWeekend(target)
    ensures var ref := s.referenceDate.value;
      var r := Resolve(Some(s), target);
      && r == Some(WeekOf(TwoShiftWeekAsWritten(ref, s.referenceShiftType, target)))
      && (-7 < target - ref < 7 ==> r.value.week == (if s.referenceShiftType == Morning then Morning else Evening))
      && (target >= ref || target + 7 <= ref ==> Resolve(Some(s), target + 7) == Some(WeekOf(Flip(r.value.week))))
      && (target >= ref || target + 14 <= ref ==> Resolve(Some(s), target + 14) == r)
  {
    var ref := s.referenceDate.value;
    var t := s.referenceShiftType;
    WeekendIsWeekTail(target, 1);
    WeekendIsWeekTail(target, 2);
    if target >= ref || target + 7 <= ref {
      AsWrittenFlipsWeekly(ref, t, target);
    }
    if target >= ref || target + 14 <= ref {
      AsWrittenFlipsWeekly(ref, t, target);
      AsWrittenFlipsWeekly(ref, t, target + 7);
    }
  }

  /** The corrected two-shift week alternates strictly: it flips from each week to the next
      and comes back after two weeks, before the reference date as well as after it. */
  lemma TwoShiftAlternates(ref: Day, refType: ShiftType, target: Day)
    ensures TwoShiftWeek(ref, refType, target + 7) == Flip(TwoShiftWeek(ref, refType, target))
    ensures TwoShiftWeek(ref, refType, target + 14) == TwoShiftWeek(ref, refType, target)
  {
    ModAddMultiple(target, 1, 7);
    ModAddMultiple(target, 2, 7);
    var w := CalendarWeekDiff(target, ref);
    assert CalendarWeekDiff(target + 7, ref) == w + 1;
    assert CalendarWeekDiff(target + 14, ref) == w + 2;
    ModAddMultiple(w, 1, 2);
    assert (w + 1) % 2 != w % 2;
  }

  // ---------------------------------------------------------------------------------------
  // When there is no suggestion
  // ---------------------------------------------------------------------------------------

  /** The resolver gives no suggestion exactly when there are no settings or no pattern, when
      a two-shift working day has no reference date, or when a pattern other than the day
      patterns lacks a reference date or a rotation table. */
  lemma ResolveNoneIff(settings: Option<UserSettings>, target: Day)
    ensures Resolve(settings, target).None? <==>
      || settings.None?
      || settings.value.shiftPattern == Unset
      || (settings.value.shiftPattern == TwoShift && !IsWeekend(target) && settings.value.referenceDate.None?)
      || (settings.value.shiftPattern in {FourShift, FiveShift, OtherPattern}
          && (settings.value.referenceDate.None? || settings.value.shiftPattern == OtherPattern))
  {
  }

  // ---------------------------------------------------------------------------------------
  // The two-shift week as written
  // ---------------------------------------------------------------------------------------

  /** With a Saturday reference, the code's truncated week count agrees with calendar weeks
      on and after the reference date. */
  lemma AsWrittenAgreesFromSaturday(ref: Day, refType: ShiftType, target: Day)
    requires JDay(ref) == 0
    requires target >= ref
    ensures TwoShiftWeekAsWritten(ref, refType, target) == TwoShiftWeek(ref, refType, target)
  {
    var q, r := (target - ref) / 7, (target - ref) % 7;
    assert ref == 7 * (ref / 7);
    ModAddMultiple(target - ref, ref / 7, 7);
    assert JDay(target) == r;
    assert WeekStart(target) - WeekStart(ref) == 7 * q;
    assert WeekDiff(target, ref) == q;
  }

  /** Before a Saturday reference the code's week count goes wrong.  Reference: Saturday
      ordinal 7 in a morning week.  Sunday ordinal 1, in the week before, gets the
      reference's morning week; Sunday ordinal 15, two weeks later, gets an evening week,
      although the two Sundays are two weeks apart. */
  lemma AsWrittenBreaksFortnight()
    ensures JDay(7) == 0 && JDay(1) == 1 && JDay(15) == 1
    ensures TwoShiftWeekAsWritten(7, Morning, 1) == Morning
    ensures TwoShiftWeekAsWritten(7, Morning, 15) == Evening
  {
    assert WeekDiff(1, 7) == 0;
    assert WeekDiff(15, 7) == 1;
  }

  /** By calendar weeks both Sundays of the example above are evening weeks: the week before
      the reference's morning week is an evening week, and so is the week after it. */
  lemma CalendarWeeksKeepFortnight()
    ensures TwoShiftWeek(7, Morning, 1) == Evening && TwoShiftWeek(7, Morning, 15) == Evening
  {
    assert CalendarWeekDiff(1, 7) == -1;
    assert CalendarWeekDiff(15, 7) == 1;
  }
}

/** Worked examples of the shift resolver on the four-shift rotation. */
module ShiftScenarios {
  import opened Calendar
  import opened Settings
  import opened ShiftResolver
  import opened ShiftProperties

  /** `n` days after the reference date the day difference is `n`, whatever the date. */
  lemma DaysAfterReference(rot: Rotation, ref: Day, refType: ShiftType, refDay: int, n: int)
    requires rot.cycleLength > 0
    ensures CyclicShift(rot, ref, refType, refDay, ref + n)
            == Locate(rot.blocks, TargetDayIndex(RefDayIndex(rot.blocks, refType, refDay), n, rot.cycleLength))
  {
  }

  /** Positions 3 and 11 of the four-shift cycle: the first morning and the last rest day. */
  lemma FourShiftPositions()
    ensures Locate(FOUR_SHIFT.blocks, 3) == Some(InBlock(Morning, 1))
    ensures Locate(FOUR_SHIFT.blocks, 11) == Some(InBlock(Rest, 3))
  {
    var b := FOUR_SHIFT.blocks;
    assert Offset(b, 1) == 3 && Offset(b, 2) == 6 && Offset(b, 3) == 9 && Offset(b, 4) == 12;
    LocateAt(b, 3, 0, 1);
    LocateAt(b, 11, 0, 3);
  }

  /** Three and eleven days after a four-shift reference on day 1 of an evening block. */
  lemma FourShiftLaterDays(d: Day)
    ensures CyclicShift(FOUR_SHIFT, d, Evening, 1, d + 3) == Some(InBlock(Morning, 1))
    ensures CyclicShift(FOUR_SHIFT, d, Evening, 1, d + 11) == Some(InBlock(Rest, 3))
  {
    DaysAfterReference(FOUR_SHIFT, d, Evening, 1, 3);
    DaysAfterReference(FOUR_SHIFT, d, Evening, 1, 11);
    assert RefDayIndex(FOUR_SHIFT.blocks, Evening, 1) == 0;
    assert TargetDayIndex(0, 3, 12) == 3;
    assert TargetDayIndex(0, 11, 12) == 11;
    FourShiftPositions();
  }

  /** The four-shift rotation calibrated on day 1 of an evening block at date `d`: the
      evening block, then the morning block three days later, the last rest day eleven days
      later, and the same evening day one whole cycle later or earlier. */
  lemma FourShiftFromEvening(d: Day)
    ensures CyclicShift(FOUR_SHIFT, d, Evening, 1, d) == Some(InBlock(Evening, 1))
    ensures CyclicShift(FOUR_SHIFT, d, Evening, 1, d + 3) == Some(InBlock(Morning, 1))
    ensures CyclicShift(FOUR_SHIFT, d, Evening, 1, d + 11) == Some(InBlock(Rest, 3))
    ensures CyclicShift(FOUR_SHIFT, d, Evening, 1, d + 12) == Some(InBlock(Evening, 1))
    ensures CyclicShift(FOUR_SHIFT, d, Evening, 1, d - 12) == Some(InBlock(Evening, 1))
  {
    assert PatternTable(FourShift) == Some(FOUR_SHIFT);
    assert FirstOfKind(FOUR_SHIFT.blocks, Evening) == 0;
    CyclicResolvesReference(FOUR_SHIFT, d, Evening, 1);
    CyclicPeriodic(FOUR_SHIFT, d, Evening, 1, d);
    FourShiftLaterDays(d);
  }
}

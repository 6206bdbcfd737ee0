/** The shift resolver: which shift a date falls on under the user's rotation settings
    (`calculateShiftForDate` in app.js, with the rotation table `shiftPatterns`). */
module ShiftResolver {
  import opened Calendar
  import opened Settings

  /** `length` consecutive days of shift `kind` within a rotation. */
  datatype Block = Block(kind: ShiftType, length: nat)

  /** A cyclic rotation: its blocks in order, repeating every `cycleLength` days. */
  datatype Rotation = Rotation(cycleLength: int, blocks: seq<Block>)

  /** What the resolver suggests for a day.  The app returns a shift type with a Persian
      label; the label is replaced by the constructor and its fields. */
  datatype Suggestion =
    | Weekend                             // rest, labelled "weekend"
    | DayWork                             // morning, labelled "day worker"
    | WeekOf(week: ShiftType)             // two-shift pattern: a morning week or an evening week
    | InBlock(kind: ShiftType, day: int)  // cyclic pattern: day `day` of a `kind` block
  {
    /** The shift type the suggestion fills the form with. */
    function Kind(): ShiftType
    {
      match this
      case Weekend => Rest
      case DayWork => Morning
      case WeekOf(w) => w
      case InBlock(k, _) => k
    }
  }

  // ---------------------------------------------------------------------------------------
  // Rotation tables
  // ---------------------------------------------------------------------------------------

  /** Total length of the first `k` blocks: the cycle position where block `k` starts. */
  function Offset(blocks: seq<Block>, k: nat): nat
    requires k <= |blocks|
  {
    if k == 0 then 0 else Offset(blocks, k - 1) + blocks[k - 1].length
  }

  lemma {:induction false} OffsetMonotone(blocks: seq<Block>, j: nat, k: nat)
    requires j <= k <= |blocks|
    ensures Offset(blocks, j) <= Offset(blocks, k)
  {
    if j < k {
      OffsetMonotone(blocks, j, k - 1);
    }
  }

  /** A rotation whose blocks are non-empty, have pairwise different shift types and
      together fill exactly one cycle. */
  predicate WellFormed(rot: Rotation)
  {
    && rot.cycleLength > 0
    && Offset(rot.blocks, |rot.blocks|) == rot.cycleLength
    && (forall i | 0 <= i < |rot.blocks| :: rot.blocks[i].length > 0)
    && (forall i, j | 0 <= i < j < |rot.blocks| :: rot.blocks[i].kind != rot.blocks[j].kind)
  }

  /** Four-shift rotation: three evenings, three mornings, three nights, three rest days. */
  const FOUR_SHIFT := Rotation(12, [Block(Evening, 3), Block(Morning, 3), Block(Night, 3), Block(Rest, 3)])

  /** Five-shift rotation: two evenings, two mornings, two nights, four rest days. */
  const FIVE_SHIFT := Rotation(10, [Block(Evening, 2), Block(Morning, 2), Block(Night, 2), Block(Rest, 4)])

  /** The built-in rotations: only the four-shift and five-shift patterns have one. */
  function PatternTable(p: Pattern): (r: Option<Rotation>)
    ensures r.Some? <==> p == FourShift || p == FiveShift
    ensures r.Some? ==> WellFormed(r.value)
  {
    match p
    case FourShift =>
      assert Offset(FOUR_SHIFT.blocks, 2) == 6;
      assert Offset(FOUR_SHIFT.blocks, 4) == 12;
      Some(FOUR_SHIFT)
    case FiveShift =>
      assert Offset(FIVE_SHIFT.blocks, 2) == 4;
      assert Offset(FIVE_SHIFT.blocks, 4) == 10;
      Some(FIVE_SHIFT)
    case _ => None
  }

  // ---------------------------------------------------------------------------------------
  // Cycle positions
  // ---------------------------------------------------------------------------------------

  /** Index of the first block of shift type `t`, or `|blocks|` when there is none. */
  function FirstOfKind(blocks: seq<Block>, t: ShiftType): (k: nat)
    ensures k <= |blocks|
    ensures k < |blocks| ==> blocks[k].kind == t
    ensures forall j | 0 <= j < k :: blocks[j].kind != t
  {
    if |blocks| == 0 then 0
    else if blocks[0].kind == t then 0
    else 1 + FirstOfKind(blocks[1..], t)
  }

  /** Cycle position of the reference date: where the reference shift's block starts plus
      the reference day minus one; position 0 when the reference shift has no block. */
  function RefDayIndex(blocks: seq<Block>, t: ShiftType, day: int): (i: int)
    ensures FirstOfKind(blocks, t) == |blocks| ==> i == 0
    ensures var k := FirstOfKind(blocks, t);
      k < |blocks| && 1 <= day <= blocks[k].length ==> Offset(blocks, k) <= i < Offset(blocks, k + 1)
  {
    var k := FirstOfKind(blocks, t);
    if k < |blocks| then Offset(blocks, k) + day - 1 else 0
  }

  /** Cycle position of the target date, computed with JavaScript's remainder as the app
      does: `(refDayIndex + dayDiff % cycleLength + cycleLength) % cycleLength`. */
  function TargetDayIndex(refDayIndex: int, dayDiff: int, cycleLength: int): (i: int)
    requires cycleLength > 0
    ensures i < cycleLength
  {
    JsRem(refDayIndex + JsRem(dayDiff, cycleLength) + cycleLength, cycleLength)
  }

  /** The block scan from block `k` on: the first block whose end lies beyond `index`,
      with the 1-based day of `index` within it; `None` when every block ends before it. */
  function LocateFrom(blocks: seq<Block>, index: int, k: nat): (r: Option<Suggestion>)
    requires k <= |blocks|
    ensures r.Some? ==> r.value.InBlock?
    ensures k < |blocks| ==> (r.None? <==> Offset(blocks, |blocks|) <= index)
    decreases |blocks| - k
  {
    if k == |blocks| then None
    else if index < Offset(blocks, k) + blocks[k].length then
      OffsetMonotone(blocks, k + 1, |blocks|);
      Some(InBlock(blocks[k].kind, index - Offset(blocks, k) + 1))
    else LocateFrom(blocks, index, k + 1)
  }

  /** The scan from the first block: it finds a block exactly for the positions before the
      end of the last block. */
  function Locate(blocks: seq<Block>, index: int): (r: Option<Suggestion>)
    ensures r.Some? ==> r.value.InBlock?
    ensures r.None? <==> |blocks| == 0 || Offset(blocks, |blocks|) <= index
  {
    LocateFrom(blocks, index, 0)
  }

  /** A cyclic pattern's suggestion for `target`, calibrated by shift `refType` on day
      `refDay` of its block at date `ref`. */
  function CyclicShift(rot: Rotation, ref: Day, refType: ShiftType, refDay: int, target: Day): (r: Option<Suggestion>)
    requires rot.cycleLength > 0
    ensures WellFormed(rot) ==> r.Some? && r.value.InBlock?
  {
    var refIndex := RefDayIndex(rot.blocks, refType, refDay);
    Locate(rot.blocks, TargetDayIndex(refIndex, DayDiff(target, ref), rot.cycleLength))
  }

  // ---------------------------------------------------------------------------------------
  // The resolver
  // ---------------------------------------------------------------------------------------

  /** The other shift of a two-shift rotation. */
  function Flip(w: ShiftType): ShiftType
  {
    if w == Morning then Evening else Morning
  }

  /** Two-shift week of `target` by calendar weeks: the reference week's shift in weeks an
      even number of Saturday-started weeks from the reference week, the other one in the
      odd weeks.  This is the weekly alternation the app's week count is meant to give; the
      resolver itself uses the app's count, `TwoShiftWeekAsWritten`. */
  function TwoShiftWeek(ref: Day, refType: ShiftType, target: Day): (w: ShiftType)
    ensures w == Morning || w == Evening
    ensures WeekStart(target) == WeekStart(ref) ==> w == (if refType == Morning then Morning else Evening)
  {
    var refWeek := if refType == Morning then Morning else Evening;
    if CalendarWeekDiff(target, ref) % 2 == 0 then refWeek else Flip(refWeek)
  }

  /** The two-shift week as app.js computes it: the parity of the whole number of 7-day
      periods between the dates, truncated toward zero, its parity taken with JavaScript's `%`.
      A reference type other than morning counts as an evening week. */
  function TwoShiftWeekAsWritten(ref: Day, refType: ShiftType, target: Day): (w: ShiftType)
    ensures w == Morning || w == Evening
    ensures -7 < DayDiff(target, ref) < 7 ==> w == (if refType == Morning then Morning else Evening)
  {
    var refWeek := if refType == Morning then Morning else Evening;
    if JsRem(WeekDiff(target, ref), 2) == 0 then refWeek else Flip(refWeek)
  }

  /** The shift suggested for `target`, or `None` when the settings cannot resolve it.  The
      two-shift week is the app's truncated week count. */
  function Resolve(settings: Option<UserSettings>, target: Day): (r: Option<Suggestion>)
    ensures r.Some? ==> settings.Some?
    ensures r.Some? && !r.value.InBlock? ==>
      settings.value.shiftPattern == DayWorker || settings.value.shiftPattern == TwoShift
    ensures r.Some? && r.value.WeekOf? ==>
      settings.value.shiftPattern == TwoShift && (r.value.week == Morning || r.value.week == Evening)
    ensures r.Some? && r.value.InBlock? ==>
      settings.value.shiftPattern == FourShift || settings.value.shiftPattern == FiveShift
    ensures settings.Some? && settings.value.referenceDate.Some?
            && (settings.value.shiftPattern == FourShift || settings.value.shiftPattern == FiveShift)
            ==> r.Some? && r.value.InBlock?
  {
    if settings.None? || settings.value.shiftPattern == Unset then None
    else
      var s := settings.value;
      if s.shiftPattern == DayWorker || s.shiftPattern == TwoShift then
        if IsWeekend(target) then Some(Weekend)
        else if s.shiftPattern == DayWorker then Some(DayWork)
        else if s.referenceDate.None? then None
        else Some(WeekOf(TwoShiftWeekAsWritten(s.referenceDate.value, s.referenceShiftType, target)))
      else if s.referenceDate.None? || PatternTable(s.shiftPattern).None? then None
      else
        CyclicShift(PatternTable(s.shiftPattern).value, s.referenceDate.value,
                    s.referenceShiftType, s.referenceShiftDay, target)
  }

  // ---------------------------------------------------------------------------------------
  // The resolver as the app runs it: two scans over the blocks
  // ---------------------------------------------------------------------------------------

  /** First scan: accumulate block lengths up to the reference shift's block. */
  method FindRefDayIndex(blocks: seq<Block>, t: ShiftType, day: int) returns (refDayIndex: int)
    ensures refDayIndex == RefDayIndex(blocks, t, day)
  {
    refDayIndex := 0;
    var daysAccumulator := 0;
    for i := 0 to |blocks|
      invariant daysAccumulator == Offset(blocks, i)
      invariant forall j | 0 <= j < i :: blocks[j].kind != t
    {
      if blocks[i].kind == t {
        refDayIndex := daysAccumulator + (day - 1);
        return;
      }
      daysAccumulator := daysAccumulator + blocks[i].length;
    }
  }

  /** Second scan: find the block holding `index` and the day within it. */
  method ScanBlocks(blocks: seq<Block>, index: int) returns (r: Option<Suggestion>)
    ensures r == Locate(blocks, index)
  {
    var daysAccumulator := 0;
    for i := 0 to |blocks|
      invariant daysAccumulator == Offset(blocks, i)
      invariant Locate(blocks, index) == LocateFrom(blocks, index, i)
    {
      if index < daysAccumulator + blocks[i].length {
        return Some(InBlock(blocks[i].kind, index - daysAccumulator + 1));
      }
      daysAccumulator := daysAccumulator + blocks[i].length;
    }
    return None;
  }

  method CalculateShiftForDate(settings: Option<UserSettings>, target: Day) returns (r: Option<Suggestion>)
    ensures r == Resolve(settings, target)
  {
    if settings.None? || settings.value.shiftPattern == Unset {
      return None;
    }
    var s := settings.value;
    if s.shiftPattern == DayWorker || s.shiftPattern == TwoShift {
      if IsWeekend(target) {
        return Some(Weekend);
      }
      if s.shiftPattern == DayWorker {
        return Some(DayWork);
      }
      if s.referenceDate.None? {
        return None;
      }
      return Some(WeekOf(TwoShiftWeekAsWritten(s.referenceDate.value, s.referenceShiftType, target)));
    }
    var table := PatternTable(s.shiftPattern);
    if s.referenceDate.None? || table.None? {
      return None;
    }
    r := CyclicShiftForDate(table.value, s.referenceDate.value, s.referenceShiftType, s.referenceShiftDay, target);
  }

  /** The cyclic branch: locate the reference day in the cycle, move by the day difference
      with JavaScript's remainder, and find the block of the resulting position. */
  method CyclicShiftForDate(rot: Rotation, ref: Day, refType: ShiftType, refDay: int, target: Day)
    returns (r: Option<Suggestion>)
    requires rot.cycleLength > 0
    ensures r == CyclicShift(rot, ref, refType, refDay, target)
  {
    var dayDiff := DayDiff(target, ref);
    var refDayIndex := FindRefDayIndex(rot.blocks, refType, refDay);
    var targetDayIndex := TargetDayIndex(refDayIndex, dayDiff, rot.cycleLength);
    r := ScanBlocks(rot.blocks, targetDayIndex);
  }
}

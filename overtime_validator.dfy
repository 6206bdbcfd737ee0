/** The overtime window check (`validateOvertime` in app.js): an overtime interval may not
    overlap the working hours of the day's shift.  Hours are on a clock that runs past 24 up
    to 24.5, so that the half hour after midnight still belongs to the same day. */
module OvertimeValidator {
  import opened Settings

  /** The half-open hour interval `[lo, hi)`. */
  datatype Range = Range(lo: real, hi: real)

  predicate Contains(r: Range, x: real)
  {
    r.lo <= x < r.hi
  }

  /** Some range of `rs` contains hour `x`. */
  predicate Covers(rs: seq<Range>, x: real)
  {
    exists i | 0 <= i < |rs| :: Contains(rs[i], x)
  }

  function Max(a: real, b: real): real { if a >= b then a else b }

  function Min(a: real, b: real): real { if a <= b then a else b }

  /** The app's intersection test: the later start comes before the earlier end. */
  predicate Meet(a: Range, b: Range)
  {
    Max(a.lo, b.lo) < Min(a.hi, b.hi)
  }

  /** Some range of `xs` meets some range of `ys`. */
  predicate Overlaps(xs: seq<Range>, ys: seq<Range>)
  {
    exists i, j | 0 <= i < |xs| && 0 <= j < |ys| :: Meet(xs[i], ys[j])
  }

  /** The overtime interval from `start` to `end`: one range when it ends later the same day,
      otherwise the part up to 24.5 and the part from midnight. */
  function GetRanges(start: real, end: real): (rs: seq<Range>)
    ensures 1 <= |rs| <= 2
    ensures forall x :: Covers(rs, x) <==>
      if start < end then start <= x < end else start <= x < 24.5 || 0.0 <= x < end
  {
    var rs := if start < end then [Range(start, end)] else [Range(start, 24.5), Range(0.0, end)];
    assert forall x | (if start < end then start <= x < end else start <= x < 24.5) :: Contains(rs[0], x);
    assert forall x | start >= end && 0.0 <= x < end :: Contains(rs[1], x);
    rs
  }

  /** The working hours overtime may not touch, or `None` for a shift without any: rest days,
      holidays, shift changes and unknown shift types.  Shemsh day and two-shift workers work
      7 to 15 in both their morning and evening weeks. */
  function WorkRanges(shiftType: ShiftType, settings: UserSettings): (r: Option<seq<Range>>)
    ensures r.Some? <==> shiftType == Morning || shiftType == Evening || shiftType == Night
    ensures r.Some? ==> 1 <= |r.value| <= 2
    ensures r.Some? ==> forall i | 0 <= i < |r.value| :: 0.0 <= r.value[i].lo < r.value[i].hi <= 24.5
  {
    if shiftType == Rest || shiftType == Holiday || shiftType == ChangeShift then None
    else if IsShemshDayWorker(settings) && (shiftType == Morning || shiftType == Evening) then
      Some([Range(7.0, 15.0)])
    else
      match shiftType
      case Morning => Some([Range(7.0, 16.0)])
      case Evening => Some([Range(15.0, 23.5)])
      case Night => Some([Range(23.0, 24.5), Range(0.0, 7.5)])
      case _ => None
  }

  /** Overtime from `start` to `end` is allowed on a day of `shiftType`. */
  predicate Permitted(shiftType: ShiftType, settings: UserSettings, start: real, end: real)
    ensures !(shiftType == Morning || shiftType == Evening || shiftType == Night) ==>
      Permitted(shiftType, settings, start, end)
  {
    match WorkRanges(shiftType, settings)
    case None => true
    case Some(work) => !Overlaps(GetRanges(start, end), work)
  }

  /** The app's nested scan over both range lists, returning on the first intersection. */
  method RangesOverlap(xs: seq<Range>, ys: seq<Range>) returns (found: bool)
    ensures found <==> Overlaps(xs, ys)
  {
    for i := 0 to |xs|
      invariant forall i', j | 0 <= i' < i && 0 <= j < |ys| :: !Meet(xs[i'], ys[j])
    {
      for j := 0 to |ys|
        invariant forall i', j' | 0 <= i' < i && 0 <= j' < |ys| :: !Meet(xs[i'], ys[j'])
        invariant forall j' | 0 <= j' < j :: !Meet(xs[i], ys[j'])
      {
        if Max(xs[i].lo, ys[j].lo) < Min(xs[i].hi, ys[j].hi) {
          return true;
        }
      }
    }
    return false;
  }

  method ValidateOvertime(shiftType: ShiftType, settings: UserSettings, start: real, end: real)
    returns (ok: bool)
    ensures ok <==> Permitted(shiftType, settings, start, end)
  {
    var work := WorkRanges(shiftType, settings);
    if work.None? {
      return true;
    }
    var conflict := RangesOverlap(GetRanges(start, end), work.value);
    ok := !conflict;
  }
}

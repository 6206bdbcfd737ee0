/** What the overtime window check guarantees: the app's intersection test means a shared
    hour, wrapped intervals cover the hours after midnight, and for each shift the exact set
    of intervals that pass. */
module OvertimeProperties {
  import opened Settings
  import opened OvertimeValidator

  // ---------------------------------------------------------------------------------------
  // The intersection test
  // ---------------------------------------------------------------------------------------

  /** The strict `max < min` test holds exactly when the two half-open ranges share an hour;
      ranges that only touch at an end point do not. */
  lemma MeetIffSharedHour(a: Range, b: Range)
    ensures Meet(a, b) <==> exists x :: Contains(a, x) && Contains(b, x)
  {
    if Meet(a, b) {
      var x := Max(a.lo, b.lo);
      assert Contains(a, x) && Contains(b, x);
    }
  }

  /** Two lists of ranges overlap exactly when some hour is covered by both. */
  lemma OverlapsIffSharedHour(xs: seq<Range>, ys: seq<Range>)
    ensures Overlaps(xs, ys) <==> exists x :: Covers(xs, x) && Covers(ys, x)
  {
    if Overlaps(xs, ys) {
      var i, j :| 0 <= i < |xs| && 0 <= j < |ys| && Meet(xs[i], ys[j]);
      MeetIffSharedHour(xs[i], ys[j]);
      var x :| Contains(xs[i], x) && Contains(ys[j], x);
      assert Covers(xs, x) && Covers(ys, x);
    }
    if x :| Covers(xs, x) && Covers(ys, x) {
      var i :| 0 <= i < |xs| && Contains(xs[i], x);
      var j :| 0 <= j < |ys| && Contains(ys[j], x);
      MeetIffSharedHour(xs[i], ys[j]);
      assert Meet(xs[i], ys[j]);
    }
  }

  /** Overtime is permitted exactly when no hour of it falls within the shift's working hours. */
  lemma PermittedIffNoSharedHour(shiftType: ShiftType, settings: UserSettings, start: real, end: real)
    ensures Permitted(shiftType, settings, start, end) <==>
      match WorkRanges(shiftType, settings)
      case None => true
      case Some(work) => forall x :: !(Covers(GetRanges(start, end), x) && Covers(work, x))
  {
    if WorkRanges(shiftType, settings).Some? {
      OverlapsIffSharedHour(GetRanges(start, end), WorkRanges(shiftType, settings).value);
    }
  }

  /** Overtime from an hour to the same hour covers every hour of the day. */
  lemma SameHourCoversDay(hour: real, x: real)
    requires 0.0 <= x < 24.5
    ensures Covers(GetRanges(hour, hour), x)
  {
  }

  // ---------------------------------------------------------------------------------------
  // Closed forms per shift
  // ---------------------------------------------------------------------------------------

  /** Overlap with a single range, spelled out for lists of one or two ranges. */
  lemma OverlapsSmall(xs: seq<Range>, ys: seq<Range>)
    requires 1 <= |xs| <= 2 && 1 <= |ys| <= 2
    ensures Overlaps(xs, ys) <==>
      || Meet(xs[0], ys[0])
      || (|ys| == 2 && Meet(xs[0], ys[1]))
      || (|xs| == 2 && Meet(xs[1], ys[0]))
      || (|xs| == 2 && |ys| == 2 && Meet(xs[1], ys[1]))
  {
    if Overlaps(xs, ys) {
      var i, j :| 0 <= i < |xs| && 0 <= j < |ys| && Meet(xs[i], ys[j]);
      assert i == 0 || i == 1;
      assert j == 0 || j == 1;
    }
  }

  /** Against one working range `[a, b)` within the day, an interval that ends later the
      same day passes when it ends by `a` or starts from `b`; a wrapped one passes only when
      it starts from `b` and ends by `a`. */
  lemma SingleWindow(a: real, b: real, start: real, end: real)
    requires 0.0 <= a < b <= 24.5
    ensures !Overlaps(GetRanges(start, end), [Range(a, b)]) <==>
      if start < end then end <= a || b <= start else b <= start && end <= a
  {
    OverlapsSmall(GetRanges(start, end), [Range(a, b)]);
  }

  /** Morning outside the shemsh arrangement: working hours 7 to 16. */
  lemma MorningPermitted(settings: UserSettings, start: real, end: real)
    requires !IsShemshDayWorker(settings)
    ensures Permitted(Morning, settings, start, end) <==>
      if start < end then end <= 7.0 || 16.0 <= start else 16.0 <= start && end <= 7.0
  {
    SingleWindow(7.0, 16.0, start, end);
  }

  /** Evening outside the shemsh arrangement: working hours 15 to 23:30. */
  lemma EveningPermitted(settings: UserSettings, start: real, end: real)
    requires !IsShemshDayWorker(settings)
    ensures Permitted(Evening, settings, start, end) <==>
      if start < end then end <= 15.0 || 23.5 <= start else 23.5 <= start && end <= 15.0
  {
    SingleWindow(15.0, 23.5, start, end);
  }

  /** Shemsh day and two-shift workers: working hours 7 to 15 in morning and evening weeks. */
  lemma ShemshDayPermitted(shiftType: ShiftType, settings: UserSettings, start: real, end: real)
    requires IsShemshDayWorker(settings)
    requires shiftType == Morning || shiftType == Evening
    ensures Permitted(shiftType, settings, start, end) <==>
      if start < end then end <= 7.0 || 15.0 <= start else 15.0 <= start && end <= 7.0
  {
    SingleWindow(7.0, 15.0, start, end);
  }

  /** Night: working hours 23 to 24:30 and midnight to 7:30. */
  lemma NightPermitted(settings: UserSettings, start: real, end: real)
    ensures Permitted(Night, settings, start, end) <==>
      if start < end then (end <= 23.0 || 24.5 <= start) && (end <= 0.0 || 7.5 <= start)
      else 24.5 <= start && end <= 0.0
  {
    OverlapsSmall(GetRanges(start, end), [Range(23.0, 24.5), Range(0.0, 7.5)]);
  }

  /** On hours of the day, night overtime must lie between 7:30 and 23 without wrapping. */
  lemma NightPermittedWithinDay(settings: UserSettings, start: real, end: real)
    requires 0.0 <= start <= 24.0 && 0.0 <= end <= 24.0
    ensures Permitted(Night, settings, start, end) <==> 7.5 <= start < end <= 23.0
  {
    NightPermitted(settings, start, end);
  }

  // ---------------------------------------------------------------------------------------
  // Consequences
  // ---------------------------------------------------------------------------------------

  /** Overtime from an hour to the same hour covers the whole day, so it always clashes with a
      morning, evening or night shift. */
  lemma FullDayAlwaysConflicts(shiftType: ShiftType, settings: UserSettings, hour: real)
    requires shiftType == Morning || shiftType == Evening || shiftType == Night
    ensures !Permitted(shiftType, settings, hour, hour)
  {
    if shiftType == Night {
      NightPermitted(settings, hour, hour);
    } else if IsShemshDayWorker(settings) {
      ShemshDayPermitted(shiftType, settings, hour, hour);
    } else if shiftType == Morning {
      MorningPermitted(settings, hour, hour);
    } else {
      EveningPermitted(settings, hour, hour);
    }
  }

  /** Worked examples outside the shemsh arrangement. */
  lemma ValidatorExamples(settings: UserSettings)
    requires !IsShemshDayWorker(settings)
    ensures Permitted(Morning, settings, 16.0, 18.0)
    ensures !Permitted(Morning, settings, 14.0, 18.0)
    ensures Permitted(Night, settings, 8.0, 10.0)
    ensures !Permitted(Night, settings, 6.0, 9.0)
    ensures !Permitted(Night, settings, 22.0, 2.0)
    ensures !Permitted(Evening, settings, 16.0, 18.0)
    ensures Permitted(Evening, settings, 10.0, 15.0)
  {
    MorningPermitted(settings, 16.0, 18.0);
    MorningPermitted(settings, 14.0, 18.0);
    NightPermitted(settings, 8.0, 10.0);
    NightPermitted(settings, 6.0, 9.0);
    NightPermitted(settings, 22.0, 2.0);
    EveningPermitted(settings, 16.0, 18.0);
    EveningPermitted(settings, 10.0, 15.0);
  }

  /** A shemsh day worker may work overtime from 15 to 18 in an evening week, which the
      regular evening shift forbids. */
  lemma ShemshEveningExample(settings: UserSettings)
    requires IsShemshDayWorker(settings)
    ensures Permitted(Evening, settings, 15.0, 18.0)
    ensures !Permitted(Evening, settings, 6.0, 8.0)
  {
    ShemshDayPermitted(Evening, settings, 15.0, 18.0);
    ShemshDayPermitted(Evening, settings, 6.0, 8.0);
  }
}

/** The saved overtime records (`overtimeData` in app.js): one record per date, replaced when
    the same date is saved again, removed by date, and totalled with `calculateDuration`. */
module OvertimeRecords {
  import opened Settings

  /** One saved overtime entry.  Dates are the Jalali date strings the form produces; hours
      are whole hours, which the form's time selectors give as 1..24. */
  datatype Record = Record(
    date: string,
    startTime: int,
    endTime: int,
    shiftType: ShiftType,
    successor: string,
    description: string)

  /** No two records share a date. */
  predicate UniqueDates(rs: seq<Record>)
  {
    forall i, j | 0 <= i < j < |rs| :: rs[i].date != rs[j].date
  }

  // ---------------------------------------------------------------------------------------
  // Lookup, upsert and delete by date
  // ---------------------------------------------------------------------------------------

  /** Index of the first record dated `date`, or -1 when there is none. */
  function IndexOfDate(rs: seq<Record>, date: string): (i: int)
    ensures -1 <= i < |rs|
    ensures i >= 0 ==> rs[i].date == date
    ensures forall j | 0 <= j < |rs| && (i == -1 || j < i) :: rs[j].date != date
  {
    if |rs| == 0 then -1
    else if rs[0].date == date then 0
    else
      var k := IndexOfDate(rs[1..], date);
      if k == -1 then -1 else k + 1
  }

  /** The list after saving `rec`: the record with its date is replaced in place, or `rec` is
      appended when its date is new. */
  function Upserted(rs: seq<Record>, rec: Record): (r: seq<Record>)
    ensures rec in r
    ensures |r| == |rs| || |r| == |rs| + 1
    ensures forall j | 0 <= j < |rs| && rs[j].date != rec.date :: r[j] == rs[j]
    ensures forall x | x in r :: x == rec || x in rs
  {
    var i := IndexOfDate(rs, rec.date);
    if i >= 0 then assert rs[i := rec][i] == rec; rs[i := rec] else rs + [rec]
  }

  /** The records not dated `date`, in their original order. */
  function WithoutDate(rs: seq<Record>, date: string): (r: seq<Record>)
    ensures |r| <= |rs|
    ensures forall x :: x in r <==> x in rs && x.date != date
  {
    if |rs| == 0 then []
    else (if rs[0].date == date then [] else [rs[0]]) + WithoutDate(rs[1..], date)
  }

  /** Deleting a date from two lists one after the other deletes it from each. */
  lemma {:induction false} WithoutDateAppend(a: seq<Record>, b: seq<Record>, date: string)
    ensures WithoutDate(a + b, date) == WithoutDate(a, date) + WithoutDate(b, date)
  {
    if |a| > 0 {
      assert (a + b)[1..] == a[1..] + b;
      WithoutDateAppend(a[1..], b, date);
    } else {
      assert a + b == b;
    }
  }

  /** Deleting a date no record carries changes nothing. */
  lemma {:induction false} WithoutAbsentDate(rs: seq<Record>, date: string)
    requires forall i | 0 <= i < |rs| :: rs[i].date != date
    ensures WithoutDate(rs, date) == rs
  {
    if |rs| > 0 {
      WithoutAbsentDate(rs[1..], date);
      assert [rs[0]] + rs[1..] == rs;
    }
  }

  /** Deleting the same date twice is deleting it once. */
  lemma DeleteIdempotent(rs: seq<Record>, date: string)
    ensures WithoutDate(WithoutDate(rs, date), date) == WithoutDate(rs, date)
  {
    var r := WithoutDate(rs, date);
    forall i | 0 <= i < |r|
      ensures r[i].date != date
    {
      assert r[i] in r;
    }
    WithoutAbsentDate(r, date);
  }

  /** Prepending a record whose date is new keeps dates unique. */
  lemma ConsUnique(x: Record, rs: seq<Record>)
    requires UniqueDates(rs)
    requires forall y | y in rs :: y.date != x.date
    ensures UniqueDates([x] + rs)
  {
    var r := [x] + rs;
    forall i, j | 0 <= i < j < |r|
      ensures r[i].date != r[j].date
    {
      if i == 0 {
        assert r[j] == rs[j - 1] && r[j] in rs;
      } else {
        assert r[i] == rs[i - 1] && r[j] == rs[j - 1];
      }
    }
  }

  /** The records after the first still have unique dates. */
  lemma TailUnique(rs: seq<Record>)
    requires |rs| > 0 && UniqueDates(rs)
    ensures UniqueDates(rs[1..])
    ensures forall j | 0 <= j < |rs| - 1 :: rs[1..][j].date != rs[0].date
  {
    var tail := rs[1..];
    forall i, j | 0 <= i < j < |tail|
      ensures tail[i].date != tail[j].date
    {
      assert tail[i] == rs[i + 1] && tail[j] == rs[j + 1];
    }
  }

  /** Deleting a date keeps dates unique. */
  lemma {:induction false} WithoutDateUnique(rs: seq<Record>, date: string)
    requires UniqueDates(rs)
    ensures UniqueDates(WithoutDate(rs, date))
  {
    if |rs| > 0 {
      var tail := rs[1..];
      TailUnique(rs);
      WithoutDateUnique(tail, date);
      if rs[0].date != date {
        forall y | y in WithoutDate(tail, date)
          ensures y.date != rs[0].date
        {
          var k :| 0 <= k < |tail| && tail[k] == y;
        }
        ConsUnique(rs[0], WithoutDate(tail, date));
      } else {
        assert WithoutDate(rs, date) == WithoutDate(tail, date);
      }
    }
  }

  /** Under unique dates, deleting a date that is present removes exactly one record. */
  lemma {:induction false} DeleteRemovesOne(rs: seq<Record>, date: string)
    requires UniqueDates(rs)
    ensures |WithoutDate(rs, date)| == if IndexOfDate(rs, date) >= 0 then |rs| - 1 else |rs|
  {
    if |rs| > 0 {
      TailUnique(rs);
      if rs[0].date == date {
        WithoutAbsentDate(rs[1..], date);
      } else {
        DeleteRemovesOne(rs[1..], date);
      }
    }
  }

  /** Replacing a record by another of the same date leaves the records of other dates as
      they were. */
  lemma {:induction false} ReplaceSameDate(rs: seq<Record>, i: nat, rec: Record)
    requires i < |rs| && rs[i].date == rec.date
    ensures WithoutDate(rs[i := rec], rec.date) == WithoutDate(rs, rec.date)
  {
    if i == 0 {
      assert rs[i := rec][1..] == rs[1..];
    } else {
      assert rs[i := rec][1..] == rs[1..][i - 1 := rec];
      ReplaceSameDate(rs[1..], i - 1, rec);
    }
  }

  /** Saving a record changes nothing but the entry for its date: the records of all other
      dates are the same records in the same order, and the list grows only when the date
      was new. */
  lemma UpsertedKeepsOthers(rs: seq<Record>, rec: Record)
    ensures WithoutDate(Upserted(rs, rec), rec.date) == WithoutDate(rs, rec.date)
    ensures |Upserted(rs, rec)| == if IndexOfDate(rs, rec.date) >= 0 then |rs| else |rs| + 1
  {
    var i := IndexOfDate(rs, rec.date);
    if i >= 0 {
      ReplaceSameDate(rs, i, rec);
    } else {
      WithoutDateAppend(rs, [rec], rec.date);
      assert WithoutDate([rec], rec.date) == [] by {
        assert [rec][1..] == [];
      }
    }
  }

  /** After saving, `rec` is the record found for its date. */
  lemma UpsertedStoresRecord(rs: seq<Record>, rec: Record)
    ensures var r := Upserted(rs, rec);
      var i := IndexOfDate(r, rec.date);
      i >= 0 && r[i] == rec
  {
    var r := Upserted(rs, rec);
    var i := IndexOfDate(rs, rec.date);
    if i >= 0 {
      assert r[i].date == rec.date;
      assert IndexOfDate(r, rec.date) == i;
    } else {
      assert r[|rs|] == rec;
      assert IndexOfDate(r, rec.date) == |rs|;
    }
  }

  /** Saving keeps dates unique. */
  lemma UpsertedUnique(rs: seq<Record>, rec: Record)
    requires UniqueDates(rs)
    ensures UniqueDates(Upserted(rs, rec))
  {
    var r := Upserted(rs, rec);
    var i := IndexOfDate(rs, rec.date);
    forall a, b | 0 <= a < b < |r|
      ensures r[a].date != r[b].date
    {
      if i < 0 && b == |rs| {
        assert rs[a].date != rec.date;
      }
    }
  }

  /** Saving the same record twice is saving it once. */
  lemma UpsertIdempotent(rs: seq<Record>, rec: Record)
    ensures Upserted(Upserted(rs, rec), rec) == Upserted(rs, rec)
  {
    var r := Upserted(rs, rec);
    var i := IndexOfDate(rs, rec.date);
    if i >= 0 {
      assert r[i] == rec;
      assert forall j | 0 <= j < i :: r[j] == rs[j];
      assert IndexOfDate(r, rec.date) == i;
    } else {
      assert r[|rs|] == rec;
      assert IndexOfDate(r, rec.date) == |rs|;
    }
  }

  // ---------------------------------------------------------------------------------------
  // Durations and totals
  // ---------------------------------------------------------------------------------------

  /** Hours from `start` to `end` on a 24-hour clock, past midnight when `end` does not come
      later than `start`. */
  function CalculateDuration(start: int, end: int): (d: int)
    ensures start + d == end || start + d == end + 24
  {
    if end > start then end - start else 24 - start + end
  }

  /** For selector hours 1..24 the duration is the clock distance: the unique number of hours
      in 1..24 that leads from `start` to `end` modulo 24; equal hours are a full day. */
  lemma DurationOnClock(start: int, end: int)
    requires 1 <= start <= 24 && 1 <= end <= 24
    ensures 1 <= CalculateDuration(start, end) <= 24
    ensures (start + CalculateDuration(start, end)) % 24 == end % 24
    ensures start == end ==> CalculateDuration(start, end) == 24
  {
  }

  /** No other number of hours in 1..24 leads from `start` to `end` on the clock. */
  lemma DurationUnique(start: int, end: int, d: int)
    requires 1 <= start <= 24 && 1 <= end <= 24
    requires 1 <= d <= 24 && (start + d) % 24 == end % 24
    ensures d == CalculateDuration(start, end)
  {
    var q := (start + d) / 24;
    var p := end / 24;
    assert start + d == 24 * q + end % 24;
    assert end == 24 * p + end % 24;
    assert 0 <= q <= 2 && 0 <= p <= 1;
  }

  /** Hours drawn from the selectors. */
  predicate SelectorHours(rs: seq<Record>)
  {
    forall i | 0 <= i < |rs| :: 1 <= rs[i].startTime <= 24 && 1 <= rs[i].endTime <= 24
  }

  /** Sum of the records' durations, accumulated front to back as the app's `reduce` does.
      With selector hours each record contributes between one hour and a full day. */
  function TotalHours(rs: seq<Record>): (t: int)
    ensures SelectorHours(rs) ==> |rs| <= t <= 24 * |rs|
  {
    if |rs| == 0 then 0
    else
      var init := rs[..|rs| - 1];
      var last := rs[|rs| - 1];
      assert SelectorHours(rs) ==> SelectorHours(init) && 1 <= CalculateDuration(last.startTime, last.endTime) <= 24 by {
        if SelectorHours(rs) {
          assert forall i | 0 <= i < |init| :: init[i] == rs[i];
          DurationOnClock(last.startTime, last.endTime);
        }
      }
      TotalHours(init) + CalculateDuration(last.startTime, last.endTime)
  }

  /** Totals add up over concatenation, so the order of the records does not matter to them. */
  lemma {:induction false} TotalHoursAppend(a: seq<Record>, b: seq<Record>)
    ensures TotalHours(a + b) == TotalHours(a) + TotalHours(b)
  {
    if |b| > 0 {
      var b' := b[..|b| - 1];
      assert (a + b)[..|a + b| - 1] == a + b';
      TotalHoursAppend(a, b');
    } else {
      assert a + b == a;
    }
  }

  /** Morning, evening and night are working days; rest days, holidays and the rest are not. */
  predicate IsWorkingShift(t: ShiftType)
  {
    t == Morning || t == Evening || t == Night
  }

  /** Number of records on working days. */
  function WorkingDays(rs: seq<Record>): (n: nat)
    ensures n <= |rs|
    ensures n > 0 <==> exists i | 0 <= i < |rs| :: IsWorkingShift(rs[i].shiftType)
  {
    if |rs| == 0 then 0
    else
      var rest := WorkingDays(rs[1..]);
      assert forall i | 0 <= i < |rs| - 1 :: rs[1..][i] == rs[i + 1];
      (if IsWorkingShift(rs[0].shiftType) then 1 else 0) + rest
  }

  /** The flat shift bonus: 5 hours once any working-day record exists, for four- and
      five-shift workers and anyone at the shemsh complex; none without settings. */
  function BonusHours(settings: Option<UserSettings>, rs: seq<Record>): (b: int)
    ensures b == 0 || b == 5
  {
    if settings.Some?
       && (settings.value.shiftPattern == FourShift || settings.value.shiftPattern == FiveShift
           || settings.value.complex == Shemsh)
       && WorkingDays(rs) > 0
    then 5
    else 0
  }

  /** When the bonus is paid: exactly for bonus-eligible settings with a working-day record. */
  lemma BonusIff(settings: Option<UserSettings>, rs: seq<Record>)
    ensures BonusHours(settings, rs) == 5 <==>
      && settings.Some?
      && (settings.value.shiftPattern in {FourShift, FiveShift} || settings.value.complex == Shemsh)
      && exists i | 0 <= i < |rs| :: rs[i].shiftType in {Morning, Evening, Night}
  {
    if exists i | 0 <= i < |rs| :: rs[i].shiftType in {Morning, Evening, Night} {
      var i :| 0 <= i < |rs| && rs[i].shiftType in {Morning, Evening, Night};
      assert IsWorkingShift(rs[i].shiftType);
    }
  }

  /** The grand total shown under the records. */
  function GrandTotal(settings: Option<UserSettings>, rs: seq<Record>): int
  {
    TotalHours(rs) + BonusHours(settings, rs)
  }

  /** The grand total exceeds the overtime total exactly for bonus-eligible settings with a
      working-day record, and with selector hours it lies between one hour per record and a
      full day per record plus the bonus. */
  lemma GrandTotalBounds(settings: Option<UserSettings>, rs: seq<Record>)
    ensures GrandTotal(settings, rs) > TotalHours(rs) <==>
      && settings.Some?
      && (settings.value.shiftPattern in {FourShift, FiveShift} || settings.value.complex == Shemsh)
      && exists i | 0 <= i < |rs| :: rs[i].shiftType in {Morning, Evening, Night}
    ensures SelectorHours(rs) ==> |rs| <= GrandTotal(settings, rs) <= 24 * |rs| + 5
  {
    BonusIff(settings, rs);
  }
}

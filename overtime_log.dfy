/** The app's in-memory record list and the handlers that change it: the form submit that
    validates and saves a record, the per-record delete and the delete-all. */
module OvertimeStore {
  import opened Settings
  import opened OvertimeValidator
  import opened OvertimeRecords

  /** How a form submission ended. */
  datatype SubmitOutcome =
    | MissingDate  // no date chosen: an error banner, nothing saved
    | Rejected     // the overtime overlaps the shift's working hours: nothing saved
    | Saved        // the record was stored under its date

  /** The first index holding `date`, by the app's `findIndex` scan; -1 when there is none. */
  method FindIndex(rs: seq<Record>, date: string) returns (index: int)
    ensures index == IndexOfDate(rs, date)
  {
    for i := 0 to |rs|
      invariant forall j | 0 <= j < i :: rs[j].date != date
    {
      if rs[i].date == date {
        return i;
      }
    }
    return -1;
  }

  class OvertimeLog {
    var records: seq<Record>

    /** The store never holds two records of the same date. */
    ghost predicate Valid()
      reads this
    {
      UniqueDates(records)
    }

    constructor()
      ensures records == [] && Valid()
    {
      records := [];
    }

    /** Store `rec`: overwrite the record of its date in place, or append it. */
    method Save(rec: Record)
      requires Valid()
      modifies this
      ensures records == Upserted(old(records), rec)
      ensures Valid()
    {
      UpsertedUnique(records, rec);
      var index := FindIndex(records, rec.date);
      if index > -1 {
        records := records[index := rec];
      } else {
        records := records + [rec];
      }
    }

    /** Remove the record of `date`, keeping the others in order. */
    method Delete(date: string)
      requires Valid()
      modifies this
      ensures records == WithoutDate(old(records), date)
      ensures Valid()
    {
      WithoutDateUnique(records, date);
      records := WithoutDate(records, date);
    }

    /** Remove every record. */
    method Clear()
      modifies this
      ensures records == [] && Valid()
    {
      records := [];
    }

    /** The form submit: refuse a missing date, then refuse overtime that overlaps the
        working hours of `shiftType`, and otherwise save the record under its date. */
    method Submit(settings: UserSettings, date: string, startTime: int, endTime: int,
                  shiftType: ShiftType, successor: string, description: string)
      returns (outcome: SubmitOutcome)
      requires Valid()
      modifies this
      ensures Valid()
      ensures outcome == MissingDate <==> date == []
      ensures outcome == Rejected <==>
        date != [] && !Permitted(shiftType, settings, startTime as real, endTime as real)
      ensures outcome == Saved ==>
        records == Upserted(old(records), Record(date, startTime, endTime, shiftType, successor, description))
      ensures outcome != Saved ==> records == old(records)
    {
      if date == [] {
        return MissingDate;
      }
      var ok := ValidateOvertime(shiftType, settings, startTime as real, endTime as real);
      if !ok {
        return Rejected;
      }
      Save(Record(date, startTime, endTime, shiftType, successor, description));
      outcome := Saved;
    }
  }
}

/** The values the app passes between its parts: shift types, the worksite, the rotation
    pattern and the user's rotation settings. */
module Settings {
  import opened Calendar

  datatype Option<T> = None | Some(value: T)

  /** The values of the shift-type field.  `OtherShift` stands for any other string. */
  datatype ShiftType = Morning | Evening | Night | Rest | Holiday | ChangeShift | OtherShift

  /** The worksite ("complex") the user works at; only `shemsh` changes behaviour. */
  datatype Complex = Shemsh | Alumina | OtherComplex

  /** The rotation pattern.  `Unset` is the empty or missing pattern; `OtherPattern` is
      any non-empty name that is none of the four known patterns. */
  datatype Pattern = Unset | DayWorker | TwoShift | FourShift | FiveShift | OtherPattern

  /** The saved settings: worksite, pattern, and the calibration point (a reference date,
      the shift observed on it and, for the cyclic patterns, the day within that shift's block). */
  datatype UserSettings = UserSettings(
    complex: Complex,
    shiftPattern: Pattern,
    referenceDate: Option<Day>,
    referenceShiftType: ShiftType,
    referenceShiftDay: int)

  /** A day worker or two-shift worker at the shemsh complex, whose working day is 7 to 15. */
  predicate IsShemshDayWorker(s: UserSettings)
  {
    s.complex == Shemsh && (s.shiftPattern == DayWorker || s.shiftPattern == TwoShift)
  }
}

/**
 * Worked cases of the scheduler on concrete days. 1970-01-04 was a Sunday
 * and 1970-01-05 a Monday.
 */
module Scenarios {
  import opened Strconv
  import opened Strings
  import opened Clock
  import opened Alarms

  const SundayMidnight: int := 3 * 86400
  const MondayMidnight: int := 4 * 86400
  const Hour: int := 3600

  function Daily(dow: string, time: string): Alarm {
    Alarm("1", dow, time, "50", "1", "", ZeroTime)
  }

  lemma DaysOfTheExamples()
    ensures Weekday(SundayMidnight) == 0 && Weekday(MondayMidnight) == 1
    ensures DayNumbers("1") == [1] && DayNumbers("2") == [2] && DayNumbers("3") == [3]
  {
    assert Split("", ',') == [""];
    assert "1"[1..] == "" && "2"[1..] == "" && "3"[1..] == "";
    assert ['1'] + "" == "1" && ['2'] + "" == "2" && ['3'] + "" == "3";
    assert Split("1", ',') == ["1"];
    assert Split("2", ',') == ["2"];
    assert Split("3", ',') == ["3"];
  }

  /** Monday 08:00, a Monday-only alarm at 06:00: next Monday at 06:00. */
  lemma PassedTodayWaitsAWeek()
    ensures NextExecutionAt(Daily("1", Itoa(6 * Hour)), MondayMidnight, MondayMidnight + 8 * Hour)
            == MondayMidnight + 6 * Hour + 7 * SecondsPerDay
  {
    DaysOfTheExamples();
    OnlyTodayWaitsAWeek(Daily("1", Itoa(6 * Hour)), MondayMidnight, MondayMidnight + 8 * Hour);
  }

  /** Monday 08:00, a Monday-only alarm at 20:00: today at 20:00. */
  lemma LaterTodayFiresToday()
    ensures NextExecutionAt(Daily("1", Itoa(20 * Hour)), MondayMidnight, MondayMidnight + 8 * Hour)
            == MondayMidnight + 20 * Hour
  {
  }

  /**
   * Sunday 07:00, a Monday-only alarm at 08:00: today at 08:00, a Sunday,
   * because today's instant is taken without looking at the weekday.
   */
  lemma TodayIsNotCheckedAgainstTheDays()
    ensures var r := NextExecutionAt(Daily("1", Itoa(8 * Hour)), SundayMidnight, SundayMidnight + 7 * Hour);
            r == SundayMidnight + 8 * Hour && Weekday(r) == 0 && Weekday(r) !in DayNumbers("1")
  {
    DaysOfTheExamples();
  }

  /** Monday 10:00, a Tuesday alarm and a Wednesday alarm at 07:00: Tuesday's is first. */
  lemma TuesdayBeforeWednesday()
    ensures var s := Annotated([Daily("2", Itoa(7 * Hour)), Daily("3", Itoa(7 * Hour))],
                               MondayMidnight, MondayMidnight + 10 * Hour);
            && s[0].NextExecution == MondayMidnight + 7 * Hour + SecondsPerDay
            && s[1].NextExecution == MondayMidnight + 7 * Hour + 2 * SecondsPerDay
            && IsFirstMinimum(s, 0)
  {
    DaysOfTheExamples();
    var c := MondayMidnight + 7 * Hour;
    WeekdayAfterDays(c, 1);
    WeekdayAfterDays(c, 2);
    assert Search(c, [2], 1) == 1;
    assert Search(c, [3], 2) == 2;
  }
}

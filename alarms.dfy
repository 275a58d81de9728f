/**
 * The alarm scheduler: each alarm record gets the instant it next fires,
 * and the soonest of a player's alarms is picked.
 *
 * An alarm comes from the server as strings: `Dow` is a comma-separated list
 * of weekday numbers (0 is Sunday) and `Time` the seconds after midnight.
 * Instants are seconds on the scale of module `Clock`; `midnight` is the
 * start of the current day and `now` the current instant.
 */
module Alarms {
  import opened Strconv
  import opened Strings
  import opened Clock

  datatype Alarm = Alarm(
    Enabled: string,
    Dow: string,
    Time: string,
    Volume: string,
    Repeat: string,
    Url: string,
    NextExecution: int)

  /** `*new(Alarm)`: every string empty and the zero instant. */
  function ZeroAlarm(): Alarm {
    Alarm("", "", "", "", "", "", ZeroTime)
  }

  /** Records the scheduler passes over: switched off, or with no days. */
  predicate Skipped(a: Alarm) {
    a.Enabled == "0" || a.Dow == ""
  }

  /** Each comma-separated token of `dow` read by `Atoi` (0 when unreadable). */
  function DayNumbers(dow: string): (days: seq<int>)
    ensures |days| == |Split(dow, ',')| >= 1
  {
    var tokens := Split(dow, ',');
    seq(|tokens|, i requires 0 <= i < |tokens| => Atoi(tokens[i]))
  }

  /** Today's firing instant: midnight plus the alarm's seconds. */
  function Candidate(a: Alarm, midnight: int): int {
    midnight + Atoi(a.Time)
  }

  /** Whether the day `k` days after instant `c` is one of `days`. */
  predicate MatchesDay(c: int, days: seq<int>, k: int) {
    Weekday(c + k * SecondsPerDay) in days
  }

  /** Some token names a real weekday, so the day-by-day search stops. */
  predicate HasWeekday(days: seq<int>) {
    exists d :: d in days && 0 <= d < 7
  }

  /**
   * The search only runs when today's instant has passed; it then needs a
   * token that names a weekday, or it never ends.
   */
  predicate Terminates(a: Alarm, midnight: int, now: int) {
    Candidate(a, midnight) < now ==> HasWeekday(DayNumbers(a.Dow))
  }

  /**
   * The first `r` from `k` to 7 whose day after `c` matches, or 7 if none
   * does.
   */
  function Search(c: int, days: seq<int>, k: nat): (r: nat)
    requires 1 <= k <= 7
    ensures k <= r <= 7
    ensures forall j | k <= j < r :: !MatchesDay(c, days, j)
    ensures MatchesDay(c, days, r) || r == 7
    decreases 7 - k
  {
    if k == 7 || MatchesDay(c, days, k) then k else Search(c, days, k + 1)
  }

  /** Every weekday comes round within a week. */
  lemma SomeDayWithinAWeek(c: int, days: seq<int>)
    requires HasWeekday(days)
    ensures MatchesDay(c, days, Search(c, days, 1))
  {
    var d :| d in days && 0 <= d < 7;
    var w := Weekday(c);
    var k := if d > w then d - w else d - w + 7;
    WeekdayAfterDays(c, k);
    assert MatchesDay(c, days, k);
  }

  /**
   * The instant the annotation loop of `GetAlarms` computes: today's
   * instant if it is not before now, otherwise the first later day, in steps
   * of 24 hours, whose weekday is one of the tokens.
   */
  function NextExecutionAt(a: Alarm, midnight: int, now: int): int {
    var c := Candidate(a, midnight);
    if c < now then c + Search(c, DayNumbers(a.Dow), 1) * SecondsPerDay else c
  }

  /** The token scan of the loop body: compare each token, read by `Atoi`, with weekday `w`, stopping at a match. */
  method TokenNamesDay(dows: seq<string>, w: int) returns (found: bool)
    ensures found <==> exists j | 0 <= j < |dows| :: Atoi(dows[j]) == w
  {
    found := false;
    var i := 0;
    while i < |dows|
      invariant 0 <= i <= |dows|
      invariant !found
      invariant forall j | 0 <= j < i :: Atoi(dows[j]) != w
    {
      var dow := Atoi(dows[i]);
      if w == dow {
        found := true;
        break;
      }
      i := i + 1;
    }
  }

  /**
   * The search for one alarm, as the body of the annotation loop runs it:
   * step a day at a time and compare the weekday with every token.
   */
  method NextExecution(a: Alarm, midnight: int, now: int) returns (date: int)
    requires Terminates(a, midnight, now)
    ensures date == NextExecutionAt(a, midnight, now)
  {
    date := midnight;
    var sec := Atoi(a.Time);
    date := date + sec;
    if date < now {
      var dows := Split(a.Dow, ',');
      ghost var c, days := date, DayNumbers(a.Dow);
      ghost var wait := Search(c, days, 1);
      SomeDayWithinAWeek(c, days);
      ghost var k := 0;
      var found := false;
      while !found
        invariant 0 <= k <= wait
        invariant date == c + k * SecondsPerDay
        invariant found <==> k == wait
        decreases wait - k
      {
        date := date + SecondsPerDay;
        k := k + 1;
        found := TokenNamesDay(dows, Weekday(date));
        assert forall j | 0 <= j < |dows| :: days[j] == Atoi(dows[j]);
        assert found <==> MatchesDay(c, days, k);
      }
    }
  }

  /** One record after the annotation loop. */
  function Annotate(a: Alarm, midnight: int, now: int): Alarm {
    if Skipped(a) then a else a.(NextExecution := NextExecutionAt(a, midnight, now))
  }

  /**
   * The records after the annotation loop: same length and order, only
   * `NextExecution` of the records not skipped is written.
   */
  function Annotated(s: seq<Alarm>, midnight: int, now: int): (r: seq<Alarm>)
    ensures |r| == |s|
    ensures forall i | 0 <= i < |s| :: r[i] == s[i].(NextExecution := r[i].NextExecution)
    ensures forall i | 0 <= i < |s| && Skipped(s[i]) :: r[i] == s[i]
    ensures forall i | 0 <= i < |s| && !Skipped(s[i]) ::
              r[i].NextExecution == NextExecutionAt(s[i], midnight, now)
  {
    seq(|s|, i requires 0 <= i < |s| => Annotate(s[i], midnight, now))
  }

  /** Every record the loop annotates has a search that stops. */
  predicate AllTerminate(s: seq<Alarm>, midnight: int, now: int) {
    forall i | 0 <= i < |s| :: !Skipped(s[i]) ==> Terminates(s[i], midnight, now)
  }

  /** The annotation loop of `GetAlarms`, writing into the records in place. */
  method AnnotateAlarms(alarms: array<Alarm>, midnight: int, now: int)
    requires AllTerminate(alarms[..], midnight, now)
    modifies alarms
    ensures alarms[..] == Annotated(old(alarms[..]), midnight, now)
  {
    for idx := 0 to alarms.Length
      invariant forall i | 0 <= i < idx :: alarms[i] == Annotate(old(alarms[i]), midnight, now)
      invariant forall i | idx <= i < alarms.Length :: alarms[i] == old(alarms[i])
    {
      var alarm := alarms[idx];
      if alarm.Enabled == "0" || alarm.Dow == "" {
        continue;
      }
      var date := NextExecution(alarm, midnight, now);
      alarms[idx] := alarms[idx].(NextExecution := date);
    }
  }

  /**
   * What the search computes: today's instant, unchecked, when it is not
   * before now; otherwise the first of the next seven days whose weekday is
   * one of the tokens, at the same time of day.
   */
  lemma {:induction false} NextExecutionIsFirstMatch(a: Alarm, midnight: int, now: int)
    requires Terminates(a, midnight, now)
    ensures var c := Candidate(a, midnight);
            var r := NextExecutionAt(a, midnight, now);
            (!(c < now) ==> r == c) &&
            (c < now ==>
               c < r <= c + 7 * SecondsPerDay &&
               (r - c) % SecondsPerDay == 0 &&
               Weekday(r) in DayNumbers(a.Dow) &&
               forall j | 1 <= j && c + j * SecondsPerDay < r :: !MatchesDay(c, DayNumbers(a.Dow), j))
  {
    var c := Candidate(a, midnight);
    if c < now {
      var days := DayNumbers(a.Dow);
      SomeDayWithinAWeek(c, days);
      var k := Search(c, days, 1);
      forall j | 1 <= j && c + j * SecondsPerDay < c + k * SecondsPerDay
        ensures !MatchesDay(c, days, j)
      {
        assert j < k;
      }
    }
  }

  /**
   * With the seconds inside one day and now inside today, the instant is
   * never in the past, and when today's instant has passed no matching day
   * between now and the result was skipped.
   */
  lemma NextExecutionNotInPast(a: Alarm, midnight: int, now: int)
    requires Terminates(a, midnight, now)
    requires 0 <= Atoi(a.Time) < SecondsPerDay
    requires midnight <= now < midnight + SecondsPerDay
    ensures NextExecutionAt(a, midnight, now) >= now
    ensures var c := Candidate(a, midnight);
            var r := NextExecutionAt(a, midnight, now);
            c < now ==>
              Weekday(r) in DayNumbers(a.Dow) &&
              forall j | now <= c + j * SecondsPerDay < r :: !MatchesDay(c, DayNumbers(a.Dow), j)
  {
    var c := Candidate(a, midnight);
    if c < now {
      var days := DayNumbers(a.Dow);
      SomeDayWithinAWeek(c, days);
      var k := Search(c, days, 1);
      forall j | now <= c + j * SecondsPerDay < c + k * SecondsPerDay
        ensures !MatchesDay(c, days, j)
      {
        assert 1 <= j < k;
      }
    }
  }

  /**
   * When the only weekday named is today's and today's instant has passed,
   * the alarm waits a full week; tokens outside 0..6, such as 7, never
   * match and make no difference.
   */
  lemma {:induction false} OnlyTodayWaitsAWeek(a: Alarm, midnight: int, now: int)
    requires Candidate(a, midnight) < now
    requires Weekday(Candidate(a, midnight)) in DayNumbers(a.Dow)
    requires forall d | d in DayNumbers(a.Dow) && 0 <= d < 7 :: d == Weekday(Candidate(a, midnight))
    ensures NextExecutionAt(a, midnight, now) == Candidate(a, midnight) + 7 * SecondsPerDay
  {
    var c := Candidate(a, midnight);
    var days := DayNumbers(a.Dow);
    var k := Search(c, days, 1);
    forall j | 1 <= j < 7
      ensures !MatchesDay(c, days, j)
    {
      WeekdayChangesWithinAWeek(c, j);
    }
  }

  /**
   * Unreadable fields degrade instead of failing: an unreadable time is
   * midnight, and an unreadable day token reads as Sunday.
   */
  lemma UnreadableFieldsDegrade(a: Alarm, midnight: int, i: int)
    requires 0 <= i < |Split(a.Dow, ',')|
    ensures !IsNumeral(a.Time) ==> Candidate(a, midnight) == midnight
    ensures !IsNumeral(Split(a.Dow, ',')[i]) ==> 0 in DayNumbers(a.Dow) && HasWeekday(DayNumbers(a.Dow))
  {
    if !IsNumeral(Split(a.Dow, ',')[i]) {
      assert DayNumbers(a.Dow)[i] == 0;
    }
  }

  /** A lone comma is two empty tokens, and a padded digit is unreadable. */
  lemma BadTokensMeanSunday()
    ensures DayNumbers(",") == [0, 0]
    ensures DayNumbers(" 2") == [0]
  {
    assert Split(",", ',') == ["", ""];
    assert Split("", ',') == [""];
    assert "2"[1..] == "" && " 2"[1..] == "2";
    assert ['2'] + "" == "2" && [' '] + "2" == " 2";
    assert Split("2", ',') == ["2"];
    assert Split(" 2", ',') == [" 2"];
    assert !IsNumeral(" 2");
  }

  /** `alarms[i]` fires no later than any other, and before all earlier ones. */
  predicate IsFirstMinimum(alarms: seq<Alarm>, i: int) {
    && 0 <= i < |alarms|
    && (forall j | 0 <= j < |alarms| :: alarms[i].NextExecution <= alarms[j].NextExecution)
    && (forall j | 0 <= j < i :: alarms[i].NextExecution < alarms[j].NextExecution)
  }

  /**
   * The scan of `GetNextAlarm`: the record with the earliest
   * `NextExecution`, the first of them on a tie, or the zero record when
   * there is none.
   */
  method SelectNextAlarm(alarms: seq<Alarm>) returns (found: bool, next: Alarm)
    ensures found <==> |alarms| > 0
    ensures found ==> exists i :: IsFirstMinimum(alarms, i) && next == alarms[i]
    ensures !found ==> next == ZeroAlarm()
  {
    var nextAlarmIdx := 0;
    found := false;
    for idx := 0 to |alarms|
      invariant found <==> idx > 0
      invariant found ==> IsFirstMinimum(alarms[..idx], nextAlarmIdx)
      invariant !found ==> nextAlarmIdx == 0
    {
      found := true;
      if alarms[idx].NextExecution < alarms[nextAlarmIdx].NextExecution {
        nextAlarmIdx := idx;
      }
    }
    if found {
      assert alarms[..|alarms|] == alarms;
      next := alarms[nextAlarmIdx];
    } else {
      next := ZeroAlarm();
    }
  }

  /**
   * Records fresh from the server carry the zero instant, which is before
   * every computed one; so when one of them is skipped, the scan picks the
   * first skipped record rather than a scheduled alarm.
   */
  lemma FirstSkippedAlarmIsSelected(s: seq<Alarm>, midnight: int, now: int, k: int)
    requires AllTerminate(s, midnight, now)
    requires forall i | 0 <= i < |s| :: s[i].NextExecution == ZeroTime
    requires forall i | 0 <= i < |s| :: 0 <= Atoi(s[i].Time)
    requires ZeroTime < midnight
    requires 0 <= k < |s| && Skipped(s[k])
    requires forall j | 0 <= j < k :: !Skipped(s[j])
    ensures IsFirstMinimum(Annotated(s, midnight, now), k)
  {
    var r := Annotated(s, midnight, now);
    forall j | 0 <= j < |s| && !Skipped(s[j])
      ensures r[j].NextExecution > ZeroTime
    {
      var c := Candidate(s[j], midnight);
      if c < now {
        var w := Search(c, DayNumbers(s[j].Dow), 1);
        assert r[j].NextExecution == c + w * SecondsPerDay;
      }
    }
  }
}

/** The "estimated reporting cutoff" each source's `get_metadata` computes.

    Every source reads the local wall clock (`datetime.datetime.now()`, a reading
    separate from the `now` argument), picks a reporting day a fixed number of
    days before the clock's calendar date depending on whether the clock's hour
    has reached the source's publication hour, and stamps that day with a fixed
    UTC hour. The clock reading is an explicit input here. */
module ReportingCutoff {
  import opened Wrappers
  import opened Calendar

  datatype Source = JohnsHopkins | RobertKoch | NewYorkTimes | OurWorldInData

  /** A wall-clock reading: calendar date and hour of day. Minutes and finer
      fields never influence the cutoff and are not represented. */
  datatype Clock = Clock(date: Date, hour: int)

  predicate ValidClock(c: Clock) {
    Valid(c.date) && 0 <= c.hour < 24
  }

  /** A cutoff timestamp: a calendar date at a whole UTC hour. */
  datatype Timestamp = Timestamp(date: Date, hour: int)

  /** Chronological order of readings and of timestamps. */
  predicate NotAfter(a: Date, ah: int, b: Date, bh: int) {
    Before(a, b) || (a == b && ah <= bh)
  }

  /** Days between the clock's date and the reporting day. */
  function DaysBack(s: Source, hour: int): nat {
    match s
    case JohnsHopkins => 0
    case RobertKoch => if hour >= 8 then 1 else 2
    case NewYorkTimes => if hour >= 15 then 1 else 2
    case OurWorldInData => if hour >= 18 then 0 else 1
  }

  /** The UTC hour stamped on the reporting day. */
  function CutoffHour(s: Source): int {
    match s
    case JohnsHopkins => 0
    case RobertKoch => 22
    case NewYorkTimes => 20
    case OurWorldInData => 8
  }

  /** `reporting_day = today` or `today - timedelta(days=k)`, then
      `datetime(reporting_day.year, reporting_day.month, reporting_day.day, H, tzinfo=utc)`.
      The subtraction raises OverflowError when it would leave the calendar. */
  function EstimatedReportingCutoff(s: Source, clock: Clock): (r: Result<Timestamp, DateError>)
    requires ValidClock(clock)
    ensures r.Success? <==> DaysBack(s, clock.hour) < Ordinal(clock.date)
    ensures r.Success? ==>
              && Valid(r.value.date)
              && Ordinal(r.value.date) + DaysBack(s, clock.hour) == Ordinal(clock.date)
              && r.value.hour == CutoffHour(s)
  {
    var back := DaysBack(s, clock.hour);
    var reportingDay :- if back == 0 then Success(clock.date) else SubtractDays(clock.date, back);
    Success(Timestamp(reportingDay, CutoffHour(s)))
  }

  // ---------------------------------------------------------------------------
  // The rule of each source, stated with calendar steps

  /** Johns Hopkins: the clock's own date at 00:00 UTC, whatever the hour. */
  lemma JohnsHopkinsCutoff(clock: Clock)
    requires ValidClock(clock)
    ensures EstimatedReportingCutoff(JohnsHopkins, clock) == Success(Timestamp(clock.date, 0))
  {
  }

  /** Robert Koch Institute: yesterday from 08:00 on, the day before yesterday
      earlier, at 22:00 UTC. */
  lemma RobertKochCutoff(clock: Clock)
    requires ValidClock(clock)
    requires clock.date != Epoch && PrevDay(clock.date) != Epoch
    ensures clock.hour >= 8 ==>
              EstimatedReportingCutoff(RobertKoch, clock) == Success(Timestamp(PrevDay(clock.date), 22))
    ensures clock.hour < 8 ==>
              EstimatedReportingCutoff(RobertKoch, clock) == Success(Timestamp(PrevDay(PrevDay(clock.date)), 22))
  {
    SubtractOneDay(clock.date);
    SubtractTwoDays(clock.date);
  }

  /** New York Times: yesterday from 15:00 on, the day before yesterday earlier,
      at 20:00 UTC. */
  lemma NewYorkTimesCutoff(clock: Clock)
    requires ValidClock(clock)
    requires clock.date != Epoch && PrevDay(clock.date) != Epoch
    ensures clock.hour >= 15 ==>
              EstimatedReportingCutoff(NewYorkTimes, clock) == Success(Timestamp(PrevDay(clock.date), 20))
    ensures clock.hour < 15 ==>
              EstimatedReportingCutoff(NewYorkTimes, clock) == Success(Timestamp(PrevDay(PrevDay(clock.date)), 20))
  {
    SubtractOneDay(clock.date);
    SubtractTwoDays(clock.date);
  }

  /** Our World in Data: today from 18:00 on, yesterday earlier, at 08:00 UTC. */
  lemma OurWorldInDataCutoff(clock: Clock)
    requires ValidClock(clock)
    requires clock.date != Epoch
    ensures clock.hour >= 18 ==>
              EstimatedReportingCutoff(OurWorldInData, clock) == Success(Timestamp(clock.date, 8))
    ensures clock.hour < 18 ==>
              EstimatedReportingCutoff(OurWorldInData, clock) == Success(Timestamp(PrevDay(clock.date), 8))
  {
    SubtractOneDay(clock.date);
  }

  /** The only failure is OverflowError on the first calendar days: 0001-01-01
      for the one-day rules, 0001-01-01 and 0001-01-02 for the two-day rules. */
  lemma CutoffFailsOnlyAtCalendarStart(s: Source, clock: Clock)
    requires ValidClock(clock)
    ensures EstimatedReportingCutoff(s, clock).Failure? <==> Ordinal(clock.date) <= DaysBack(s, clock.hour)
    ensures Before(Date(1, 1, 2), clock.date) ==> EstimatedReportingCutoff(s, clock).Success?
  {
    if Before(Date(1, 1, 2), clock.date) {
      OrdinalOrder(Date(1, 1, 2), clock.date);
      assert Ordinal(Date(1, 1, 2)) == 2;
    }
  }

  /** The cutoff never lies after the clock's own date. */
  lemma CutoffNotAfterClockDate(s: Source, clock: Clock)
    requires ValidClock(clock)
    requires EstimatedReportingCutoff(s, clock).Success?
    ensures !Before(clock.date, EstimatedReportingCutoff(s, clock).value.date)
  {
    OrdinalOrder(clock.date, EstimatedReportingCutoff(s, clock).value.date);
  }

  /** Monotonicity: a later clock reading never yields an earlier cutoff. */
  lemma CutoffMonotone(s: Source, c1: Clock, c2: Clock)
    requires ValidClock(c1) && ValidClock(c2)
    requires NotAfter(c1.date, c1.hour, c2.date, c2.hour)
    requires EstimatedReportingCutoff(s, c1).Success? && EstimatedReportingCutoff(s, c2).Success?
    ensures var t1, t2 := EstimatedReportingCutoff(s, c1).value, EstimatedReportingCutoff(s, c2).value;
            NotAfter(t1.date, t1.hour, t2.date, t2.hour)
  {
    var t1, t2 := EstimatedReportingCutoff(s, c1).value, EstimatedReportingCutoff(s, c2).value;
    OrdinalOrder(c1.date, c2.date);
    OrdinalOrder(t1.date, t2.date);
  }

  // ---------------------------------------------------------------------------
  // Worked examples, across a month end, a leap day and a year end

  /** 2021-03-10 at 09:00 gives 2021-03-09 22:00; at 07:00 it gives 2021-03-08 22:00. */
  lemma RobertKochExample()
    ensures EstimatedReportingCutoff(RobertKoch, Clock(Date(2021, 3, 10), 9))
         == Success(Timestamp(Date(2021, 3, 9), 22))
    ensures EstimatedReportingCutoff(RobertKoch, Clock(Date(2021, 3, 10), 7))
         == Success(Timestamp(Date(2021, 3, 8), 22))
  {
    RobertKochCutoff(Clock(Date(2021, 3, 10), 9));
    RobertKochCutoff(Clock(Date(2021, 3, 10), 7));
  }

  /** Before 08:00 on New Year's Day the RKI cutoff is 30 December of the previous year. */
  lemma RobertKochYearEndExample()
    ensures EstimatedReportingCutoff(RobertKoch, Clock(Date(2021, 1, 1), 7))
         == Success(Timestamp(Date(2020, 12, 30), 22))
  {
    RobertKochCutoff(Clock(Date(2021, 1, 1), 7));
  }

  /** On 1 March the previous day is 29 February in a leap year. */
  lemma LeapYearExample()
    ensures EstimatedReportingCutoff(NewYorkTimes, Clock(Date(2020, 3, 1), 16))
         == Success(Timestamp(Date(2020, 2, 29), 20))
  {
    assert IsLeapYear(2020);
    assert PrevDay(Date(2020, 3, 1)) == Date(2020, 2, 29);
    NewYorkTimesCutoff(Clock(Date(2020, 3, 1), 16));
  }

  /** ... and 28 February otherwise, including century years not divisible by 400. */
  lemma CommonYearExamples()
    ensures EstimatedReportingCutoff(NewYorkTimes, Clock(Date(2021, 3, 1), 16))
         == Success(Timestamp(Date(2021, 2, 28), 20))
    ensures EstimatedReportingCutoff(OurWorldInData, Clock(Date(2100, 3, 1), 6))
         == Success(Timestamp(Date(2100, 2, 28), 8))
  {
    assert !IsLeapYear(2021) && !IsLeapYear(2100);
    assert PrevDay(Date(2021, 3, 1)) == Date(2021, 2, 28);
    assert PrevDay(Date(2100, 3, 1)) == Date(2100, 2, 28);
    NewYorkTimesCutoff(Clock(Date(2021, 3, 1), 16));
    OurWorldInDataCutoff(Clock(Date(2100, 3, 1), 6));
  }
}

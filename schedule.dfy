/**
 * Clock arithmetic of the heartbeat: local days, hours and ISO weekdays,
 * the week a date falls in, when a proposal is obsolete, and when a chat
 * is due for an automatic proposal.
 *
 * Time is a whole number of minutes since 1970-01-01 00:00 in the
 * configured zone (`localMoment()`); a date is a whole number of days.
 */
module Schedule {
  import opened Helpers
  import opened Contexts

  type Minutes = int

  const MinutesPerDay: int := 1440

  function DayOf(t: Minutes): Day
  {
    t / MinutesPerDay
  }

  function StartOfDay(d: Day): Minutes
  {
    d * MinutesPerDay
  }

  /** `now.hour()`. */
  function HourOf(t: Minutes): (h: int)
    ensures 0 <= h < 24
  {
    (t % MinutesPerDay) / 60
  }

  /** The ISO weekday of a date, Monday 1 to Sunday 7; 1970-01-01 was a Thursday. */
  function Weekday(d: Day): (w: int)
    ensures 1 <= w <= 7
  {
    (d + 3) % 7 + 1
  }

  /** `now.isoWeekday()`. */
  function IsoWeekday(t: Minutes): (w: int)
    ensures 1 <= w <= 7
  {
    Weekday(DayOf(t))
  }

  /** Stepping `k` days from a date of ISO weekday `w0` lands on weekday `(w0 - 1 + k) % 7 + 1`. */
  lemma WeekdayAfter(d: Day, k: int)
    ensures Weekday(d + k) == (Weekday(d) - 1 + k) % 7 + 1
  {
    var a := (d + 3) % 7;
    var m := (d + 3) / 7;
    assert d + 3 == 7 * m + a;
    var q := (a + k) / 7;
    var r := (a + k) % 7;
    assert a + k == 7 * q + r;
    DivModUnique(d + k + 3, 7, m + q, r);
  }

  // ---------------------------------------------------------------------
  // Weeks

  /**
   * `now.clone().startOf('week')` as a date, for a locale whose weeks
   * begin on ISO weekday `firstWeekday`.
   */
  function WeekStart(now: Minutes, firstWeekday: int): (d: Day)
    requires 1 <= firstWeekday <= 7
    ensures d <= DayOf(now) < d + 7
    ensures Weekday(d) == firstWeekday
  {
    var back := (IsoWeekday(now) - firstWeekday) % 7;
    WeekdayAfter(DayOf(now), -back);
    DayOf(now) - back
  }

  /** The ISO week's Monday, which is what the heartbeat uses. */
  function IsoWeekStart(now: Minutes): (d: Day)
    ensures Weekday(d) == 1
    ensures DayOf(now) - d == IsoWeekday(now) - 1
  {
    WeekStart(now, 1)
  }

  /**
   * The date a manual proposal is for, as written: this week's day 4 up
   * to ISO Friday, next week's day 4 at the weekend (`endOf('week')`
   * plus four and a half days), in a locale whose weeks begin on
   * `firstWeekday`.
   */
  function ManualProposalDayAsWritten(now: Minutes, firstWeekday: int): Day
    requires 1 <= firstWeekday <= 7
  {
    var week := WeekStart(now, firstWeekday);
    if IsoWeekday(now) <= 5 then week + 4 else week + 11
  }

  /**
   * moment's default locale begins weeks on Sunday: a manual proposal made
   * on Friday 1970-01-02 is dated Thursday 1970-01-01, the day before.
   */
  lemma SundayFirstFridayProposal()
    ensures IsoWeekday(StartOfDay(1) + 600) == 5
    ensures ManualProposalDayAsWritten(StartOfDay(1) + 600, 7) == 0
    ensures Weekday(0) == 4 && 0 < DayOf(StartOfDay(1) + 600)
  {
    DivModUnique(StartOfDay(1) + 600, MinutesPerDay, 1, 600);
  }

  /**
   * The date of a manual proposal on ISO weeks: always a Friday, and the
   * first Friday from today on.
   */
  function ManualProposalDay(now: Minutes): (d: Day)
    ensures Weekday(d) == 5
    ensures DayOf(now) <= d < DayOf(now) + 7
  {
    var week := IsoWeekStart(now);
    WeekdayAfter(week, 4);
    WeekdayAfter(week, 11);
    ManualProposalDayAsWritten(now, 1)
  }

  /** `week.clone().add(4, 'days').add(12, 'hours')` as a date: the week's Friday. */
  function AutoProposalDay(week: Day): (d: Day)
    ensures Weekday(week) == 1 ==> Weekday(d) == 5
  {
    WeekdayAfter(week, 4);
    week + 4
  }

  // ---------------------------------------------------------------------
  // Closing

  /** The close sweep's condition: the context has a proposal whose date's 22:00 has passed. */
  predicate IsObsolete(c: Context, now: Minutes)
  {
    c.proposal.Some? && now > StartOfDay(c.proposal.value.when) + 22 * 60
  }

  /** A proposal stays open through its date until 22:00 and no longer. */
  lemma ObsoleteAfterTenPm(c: Context, now: Minutes)
    requires c.proposal.Some?
    ensures IsObsolete(c, now) <==>
      DayOf(now) > c.proposal.value.when || (DayOf(now) == c.proposal.value.when && now % MinutesPerDay > 22 * 60)
  {
    assert now == DayOf(now) * MinutesPerDay + now % MinutesPerDay;
  }

  // ---------------------------------------------------------------------
  // Automatic proposals

  /** The heartbeat proposes only from ISO Monday to Wednesday, 12:00 to 18:59. */
  predicate InProposeWindow(now: Minutes)
  {
    !(IsoWeekday(now) > 3 || HourOf(now) < 12 || HourOf(now) > 18)
  }

  /**
   * A chat's trigger time within its week, from the first eight digits of
   * its nonce: day 0 to 2, at 12:00 plus 0 to 299 minutes.
   */
  function TriggerOffset(nonce: Digest): (offset: int)
    ensures 0 <= offset / MinutesPerDay < 3
    ensures 12 * 60 <= offset % MinutesPerDay < 17 * 60
  {
    var day := HexValue(nonce[..4]) % 3;
    var minute := HexValue(nonce[4..8]) % 300;
    DivModUnique(day * MinutesPerDay + 720 + minute, MinutesPerDay, day, 720 + minute);
    day * MinutesPerDay + 720 + minute
  }

  /**
   * The instant a chat becomes due in the week starting on `week`; the
   * nonce hashes the chat's salt and the week's date (`formatDate`, as
   * `YYYY-MM-DD`).
   */
  function TriggerTime(c: Context, week: Day, formatDate: Day -> string, sha: Sha256): Minutes
  {
    StartOfDay(week) + TriggerOffset(sha(c.salt + formatDate(week)))
  }

  /**
   * The auto-propose sweep's condition: no proposal dated less than eight
   * days before the week's start, and the chat's trigger time has passed.
   */
  predicate IsProposalDue(c: Context, now: Minutes, week: Day, formatDate: Day -> string, sha: Sha256)
  {
    && !(c.proposal.Some? && week - c.proposal.value.when <= 7)
    && now > TriggerTime(c, week, formatDate, sha)
  }

  /**
   * On an ISO week, every chat's trigger time falls inside the window, and
   * the window stays open until 19:00 that day, so the chat becomes due
   * while the heartbeat still proposes.
   */
  lemma TriggerInWindow(c: Context, week: Day, formatDate: Day -> string, sha: Sha256, now: Minutes)
    requires Weekday(week) == 1
    requires TriggerTime(c, week, formatDate, sha) < now
    requires now < StartOfDay(DayOf(TriggerTime(c, week, formatDate, sha))) + 19 * 60
    ensures InProposeWindow(now)
  {
    var offset := TriggerOffset(sha(c.salt + formatDate(week)));
    var day := offset / MinutesPerDay;
    var trigger := TriggerTime(c, week, formatDate, sha);
    assert offset == day * MinutesPerDay + offset % MinutesPerDay;
    DivModUnique(trigger, MinutesPerDay, week + day, offset % MinutesPerDay);
    DivModUnique(now, MinutesPerDay, week + day, now - StartOfDay(week + day));
    WeekdayAfter(week, day);
  }

  /**
   * A proposal for a week's Friday still blocks the next week: automatic
   * proposals come at most every other week.
   */
  lemma LastWeeksProposalBlocks(c: Context, now: Minutes, week: Day, formatDate: Day -> string, sha: Sha256)
    requires c.proposal.Some? && c.proposal.value.when == AutoProposalDay(week - 7)
    ensures !IsProposalDue(c, now, week, formatDate, sha)
  {
  }

  /** Inside the window, today is the ISO week's Monday, Tuesday or Wednesday. */
  lemma WindowIsEarlyInTheWeek(now: Minutes)
    requires InProposeWindow(now)
    ensures IsoWeekStart(now) <= DayOf(now) <= IsoWeekStart(now) + 2
  {
  }

  /**
   * The date of an automatic proposal as written: four days after
   * `now.clone().startOf('week')` in a locale whose weeks begin on
   * `firstWeekday`.
   */
  function AutoProposalDayAsWritten(now: Minutes, firstWeekday: int): Day
    requires 1 <= firstWeekday <= 7
  {
    AutoProposalDay(WeekStart(now, firstWeekday))
  }

  /**
   * Under moment's default Sunday-first locale, the sweep running on Monday
   * 1970-01-05 at noon proposes Thursday 1970-01-08.
   */
  lemma SundayFirstAutoProposal()
    ensures InProposeWindow(StartOfDay(4) + 720)
    ensures Weekday(AutoProposalDayAsWritten(StartOfDay(4) + 720, 7)) == 4
  {
    DivModUnique(StartOfDay(4) + 720, MinutesPerDay, 4, 720);
  }

  /** A proposal for this ISO week's Friday is not obsolete in the window. */
  lemma WindowPrecedesFriday(now: Minutes)
    requires InProposeWindow(now)
    ensures now <= StartOfDay(AutoProposalDay(IsoWeekStart(now))) + 22 * 60
  {
    WindowIsEarlyInTheWeek(now);
    assert now < StartOfDay(DayOf(now) + 1);
  }
}

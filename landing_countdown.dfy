/** The landing page's countdown to the KSeF deadline: the days, weeks,
    months and total hours left, and the share of the preparation period
    (from 26 October 2024) already gone. */
module LandingCountdown {
  import opened JsNumber

  /** 2026-02-01T00:00:01+01:00 and 2024-10-26T00:00:00+02:00, in epoch milliseconds. */
  const DeadlineMs: int := 1769900401000
  const StartMs: int := 1729893600000

  const DayMs: int := 86400000
  const HourMs: int := 3600000

  datatype TimeLeft = TimeLeft(days: int, weeks: int, months: int, hours: int, percentElapsed: real)

  /** The state before the first update. */
  const Initial := TimeLeft(0, 0, 0, 0, 0.0)

  function Clamp(x: real): (r: real)
    ensures 0.0 <= r <= 100.0
    ensures 0.0 <= x <= 100.0 ==> r == x
  {
    if x > 100.0 then 100.0 else if x < 0.0 then 0.0 else x
  }

  /** `(elapsed / total) * 100`, clamped to [0, 100]. */
  function PercentElapsed(now: int): (r: real)
    ensures 0.0 <= r <= 100.0
    ensures now <= StartMs ==> r == 0.0
    ensures now >= DeadlineMs ==> r == 100.0
  {
    Clamp((now - StartMs) as real / (DeadlineMs - StartMs) as real * 100.0)
  }

  /** `calculateTimeLeft` at the instant `now` (epoch milliseconds). */
  function Calculate(now: int): (t: TimeLeft)
    ensures DeadlineMs - now <= 0 ==> t == TimeLeft(0, 0, 0, 0, 100.0)
    ensures DeadlineMs - now > 0 ==>
      && t.days == (DeadlineMs - now) / DayMs
      && t.hours == (DeadlineMs - now) / HourMs
      && t.weeks == t.days / 7
      && t.months * 3044 <= t.days * 100 < (t.months + 1) * 3044
      && t.percentElapsed == PercentElapsed(now)
    ensures 0.0 <= t.percentElapsed <= 100.0
  {
    var diff := DeadlineMs - now;
    if diff <= 0 then TimeLeft(0, 0, 0, 0, 100.0)
    else
      var days := (diff as real / DayMs as real).Floor;
      var hours := (diff as real / HourMs as real).Floor;
      var weeks := (days as real / 7.0).Floor;
      var months := (days as real / 30.44).Floor;
      TimeLeft(days, weeks, months, hours, PercentElapsed(now))
  }

  /** The hours are the total left, not the hours of the last day. */
  lemma HoursAreTotal(now: int)
    requires DeadlineMs - now > 0
    ensures var t := Calculate(now); 24 * t.days <= t.hours < 24 * t.days + 24
  {
  }

  /** Time only ever adds to the elapsed share, across the deadline too. */
  lemma PercentNeverFalls(now1: int, now2: int)
    requires now1 <= now2
    ensures Calculate(now1).percentElapsed <= Calculate(now2).percentElapsed
  {
    if DeadlineMs - now2 > 0 {
      var total := (DeadlineMs - StartMs) as real;
      assert (now1 - StartMs) as real / total <= (now2 - StartMs) as real / total;
    }
  }

  /** Before the deadline less than the whole period has gone; before the
      start nothing has. */
  lemma PercentBeforeDeadline(now: int)
    requires DeadlineMs - now > 0
    ensures Calculate(now).percentElapsed < 100.0
    ensures now <= StartMs ==> Calculate(now).percentElapsed == 0.0
  {
    var total := (DeadlineMs - StartMs) as real;
    assert (now - StartMs) as real < total;
    assert (now - StartMs) as real / total < 1.0;
  }

  /** The ring shows `round(p)%` gone and `round(100 - p)%` left: together
      they make 100, except when p ends in exactly one half, when they make 101. */
  lemma RoundedSharesSum(p: real)
    ensures JsRound(p) + JsRound(100.0 - p) == if p - p.Floor as real == 0.5 then 101 else 100
  {
    var f := p - p.Floor as real;
    if f < 0.5 {
      assert JsRound(p) == p.Floor;
      assert JsRound(100.0 - p) == 100 - p.Floor;
    } else if f == 0.5 {
      assert JsRound(p) == p.Floor + 1;
      assert JsRound(100.0 - p) == 100 - p.Floor;
    } else {
      assert JsRound(p) == p.Floor + 1;
      assert JsRound(100.0 - p) == 99 - p.Floor;
    }
  }
}

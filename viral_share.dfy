/** The share section under the calculator results: a live counter of
    checks, a 48-hour countdown, the percentile the loss puts a company in,
    and the share counter whose third share unlocks the reward. */
module ViralShare {

  /** The countdown state `{ hours, minutes, seconds }`. */
  datatype TimeLeft = TimeLeft(hours: nat, minutes: nat, seconds: nat)

  const InitialTime := TimeLeft(47, 59, 59)
  const InitialLiveCounter := 1247

  function TotalSeconds(t: TimeLeft): nat {
    t.hours * 3600 + t.minutes * 60 + t.seconds
  }

  /** Minutes and seconds are shown as clock digits. */
  predicate InRange(t: TimeLeft) {
    t.minutes < 60 && t.seconds < 60
  }

  /** One second of the countdown: the seconds go down, borrowing from the
      minutes and then the hours; at 0:00:00 the time stays. */
  function Tick(t: TimeLeft): (r: TimeLeft)
    ensures TotalSeconds(t) == 0 ==> r == t
    ensures TotalSeconds(t) > 0 ==> TotalSeconds(r) + 1 == TotalSeconds(t)
    ensures InRange(t) ==> InRange(r)
  {
    if t.seconds > 0 then t.(seconds := t.seconds - 1)
    else if t.minutes > 0 then TimeLeft(t.hours, t.minutes - 1, 59)
    else if t.hours > 0 then TimeLeft(t.hours - 1, 59, 59)
    else t
  }

  function Ticks(t: TimeLeft, n: nat): TimeLeft {
    if n == 0 then t else Tick(Ticks(t, n - 1))
  }

  /** After n ticks the countdown shows n seconds less, never below zero. */
  lemma {:induction false} TicksCountDown(t: TimeLeft, n: nat)
    ensures TotalSeconds(Ticks(t, n)) == if n <= TotalSeconds(t) then TotalSeconds(t) - n else 0
    ensures InRange(t) ==> InRange(Ticks(t, n))
  {
    if n > 0 {
      TicksCountDown(t, n - 1);
    }
  }

  /** The countdown starts at 47:59:59 and reaches zero after exactly that many seconds. */
  lemma InitialCountdownEnds()
    ensures TotalSeconds(Ticks(InitialTime, 172799)) == 0
    ensures forall n: nat :: n < 172799 ==> TotalSeconds(Ticks(InitialTime, n)) > 0
  {
    TicksCountDown(InitialTime, 172799);
    forall n: nat | n < 172799 ensures TotalSeconds(Ticks(InitialTime, n)) > 0 {
      TicksCountDown(InitialTime, n);
    }
  }

  /** `calculatePercentile`: the "top N%" a yearly loss places a company in. */
  function Percentile(loss: real): (p: int)
    ensures p in {85, 65, 35, 15}
    ensures p == 85 <==> loss < 50000.0
    ensures p == 15 <==> loss >= 200000.0
  {
    if loss < 50000.0 then 85
    else if loss < 100000.0 then 65
    else if loss < 200000.0 then 35
    else 15
  }

  /** A larger loss never gives a better (higher) percentile. */
  lemma PercentileMonotone(a: real, b: real)
    requires a <= b
    ensures Percentile(b) <= Percentile(a)
  {
  }

  /** The three reward tiers, highlighted once that many shares were made. */
  function Tiers(shares: nat): (r: seq<bool>)
    ensures |r| == 3
    ensures forall i :: 0 <= i < 3 ==> (r[i] <==> shares >= i + 1)
  {
    [shares >= 1, shares >= 2, shares >= 3]
  }

  /** The "Jeszcze {3 - sharesCount} udostępnień" counter as written. */
  function RemainingAsWritten(shares: nat): (r: int)
    ensures r < 0 <==> shares > 3
  {
    3 - shares
  }

  /** A fourth share makes the counter read "Jeszcze -1". */
  lemma RemainingGoesNegative()
    ensures RemainingAsWritten(4) == -1
  {
  }

  /** The shares still needed for the reward, stopping at zero. */
  function Remaining(shares: nat): (r: nat)
    ensures r <= 3
    ensures r == 0 <==> Tiers(shares)[2]
    ensures shares <= 3 ==> r == RemainingAsWritten(shares)
  {
    if shares >= 3 then 0 else 3 - shares
  }

  class ShareSection {
    var liveCounter: nat
    var sharesCount: nat
    var showReward: bool
    var timeLeft: TimeLeft

    /** The reward is shown exactly when the third tier is reached; the
        counter never falls below its start; the clock digits stay in range. */
    predicate Valid()
      reads this
    {
      (showReward <==> Tiers(sharesCount)[2])
      && liveCounter >= InitialLiveCounter
      && InRange(timeLeft)
    }

    constructor()
      ensures Valid()
      ensures liveCounter == InitialLiveCounter && sharesCount == 0 && !showReward
      ensures timeLeft == InitialTime
    {
      liveCounter := InitialLiveCounter;
      sharesCount := 0;
      showReward := false;
      timeLeft := InitialTime;
    }

    /** `handleShare`: one more share; the reward appears with the third. */
    method Share()
      requires Valid()
      modifies this
      ensures Valid()
      ensures sharesCount == old(sharesCount) + 1
      ensures showReward <==> old(sharesCount) + 1 >= 3
      ensures liveCounter == old(liveCounter) && timeLeft == old(timeLeft)
    {
      sharesCount := sharesCount + 1;
      if sharesCount >= 3 {
        showReward := true;
      }
    }

    /** The live counter's interval: it grows by `floor(random * 3)` for a draw in [0, 1). */
    method LiveTick(draw: real)
      requires Valid()
      requires 0.0 <= draw < 1.0
      modifies this
      ensures Valid()
      ensures old(liveCounter) <= liveCounter <= old(liveCounter) + 2
      ensures liveCounter == old(liveCounter) + (draw * 3.0).Floor
      ensures sharesCount == old(sharesCount) && showReward == old(showReward) && timeLeft == old(timeLeft)
    {
      var step := (draw * 3.0).Floor;
      liveCounter := liveCounter + step;
    }

    /** The countdown's interval. */
    method CountdownTick()
      requires Valid()
      modifies this
      ensures Valid()
      ensures timeLeft == Tick(old(timeLeft))
      ensures liveCounter == old(liveCounter) && sharesCount == old(sharesCount) && showReward == old(showReward)
    {
      timeLeft := Tick(timeLeft);
    }
  }
}

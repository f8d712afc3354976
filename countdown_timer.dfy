/** The countdown boxes: the time until a target split into days, hours,
    minutes and seconds, each shown with two digits under its Polish label. */
module CountdownTimer {
  import opened JsNumber
  import opened Text

  datatype TimeLeft = TimeLeft(days: int, hours: int, minutes: int, seconds: int)

  const Zero := TimeLeft(0, 0, 0, 0)

  /** `calculateTimeLeft`'s split of a positive difference in milliseconds,
      written with the page's real divisions and remainders. */
  function Split(difference: int): (t: TimeLeft)
    requires difference > 0
    ensures t.days == difference / 86400000
    ensures t.hours == (difference / 3600000) % 24
    ensures t.minutes == (difference / 60000) % 60
    ensures t.seconds == (difference / 1000) % 60
  {
    var d := difference as real;
    SplitSteps(difference);
    TimeLeft(
      (d / 86400000.0).Floor,
      JsMod(d / 3600000.0, 24.0).Floor,
      JsMod(d / 1000.0 / 60.0, 60.0).Floor,
      JsMod(d / 1000.0, 60.0).Floor)
  }

  /** Each real expression of the split against its integer reading. */
  lemma SplitSteps(difference: int)
    requires difference > 0
    ensures (difference as real / 86400000.0).Floor == difference / 86400000
    ensures JsMod(difference as real / 3600000.0, 24.0).Floor == (difference / 3600000) % 24
    ensures JsMod(difference as real / 1000.0 / 60.0, 60.0).Floor == (difference / 60000) % 60
    ensures JsMod(difference as real / 1000.0, 60.0).Floor == (difference / 1000) % 60
  {
    var d := difference as real;
    assert (d / 3600000.0).Floor == difference / 3600000;
    ModFloor(d / 3600000.0, 24);
    assert d / 1000.0 / 60.0 == d / 60000.0;
    assert (d / 60000.0).Floor == difference / 60000;
    ModFloor(d / 60000.0, 60);
    assert (d / 1000.0).Floor == difference / 1000;
    ModFloor(d / 1000.0, 60);
  }

  /** `Math.floor(x % b)` of a non-negative x is the floor of x modulo b. */
  lemma ModFloor(x: real, b: int)
    requires x >= 0.0 && (b == 24 || b == 60)
    ensures JsMod(x, b as real).Floor == x.Floor % b
  {
    if b == 24 {
      assert (x / 24.0).Floor == x.Floor / 24;
    } else {
      assert (x / 60.0).Floor == x.Floor / 60;
    }
  }

  /** The parts are clock digits and add back up to the whole seconds left. */
  lemma SplitRecombines(difference: int)
    requires difference > 0
    ensures var t := Split(difference);
      0 <= t.days && 0 <= t.hours < 24 && 0 <= t.minutes < 60 && 0 <= t.seconds < 60
      && t.days * 86400 + t.hours * 3600 + t.minutes * 60 + t.seconds == difference / 1000
  {
    var s := difference / 1000;
    assert difference / 60000 == s / 60;
    assert difference / 3600000 == s / 60 / 60;
    assert difference / 86400000 == s / 60 / 60 / 24;
  }

  /** The value after an update: a new split while the target is ahead,
      otherwise the previous value. */
  function Next(previous: TimeLeft, difference: int): (t: TimeLeft)
    ensures difference > 0 ==> t == Split(difference)
    ensures difference <= 0 ==> t == previous
  {
    if difference > 0 then Split(difference) else previous
  }

  /** Once the target has passed, the boxes keep their last value; a target
      already past on the first update shows zeros. */
  lemma PassedTargetFreezes(previous: TimeLeft, d1: int, d2: int)
    requires d1 <= 0 && d2 <= 0
    ensures Next(Next(previous, d1), d2) == previous
    ensures Next(Zero, d1) == Zero
  {
  }

  datatype Unit = Days | Hours | Minutes | Seconds

  function UnitLabel(u: Unit): (l: string)
    ensures |l| == 3 || |l| == 4
  {
    match u
    case Days => "Dni"
    case Hours => "Godz"
    case Minutes => "Min"
    case Seconds => "Sek"
  }

  /** One box: the zero-padded value and its label. */
  datatype Box = Box(value: string, caption: string)

  /** One box for a value of the given unit. */
  function BoxOf(n: nat, u: Unit): (b: Box)
    ensures |b.value| >= 2 && b.caption == UnitLabel(u)
    ensures b.value == Pad2(NatToString(n))
  {
    Box(Pad2(NatToString(n)), UnitLabel(u))
  }

  /** A box shows its number: digits only, reading back as the number, and
      exactly two of them below 100. */
  lemma BoxShowsNumber(n: nat, u: Unit)
    ensures var v := BoxOf(n, u).value;
      (forall i :: 0 <= i < |v| ==> IsDigit(v[i])) && DecimalValue(v) == n && (n < 100 ==> |v| == 2)
  {
    PaddedValue(n);
  }

  /** The padded text is all digits and reads back as the number. */
  lemma PaddedValue(n: nat)
    ensures var v := Pad2(NatToString(n));
      (forall i :: 0 <= i < |v| ==> IsDigit(v[i])) && DecimalValue(v) == n
      && (n < 100 ==> |v| == 2)
  {
    DecimalOfNat(n);
    if n < 10 {
      PaddedOneDigit(n);
    } else {
      PaddedTwoOrMore(n);
    }
  }

  lemma PaddedOneDigit(n: nat)
    requires n < 10
    ensures Pad2(NatToString(n)) == ['0'] + NatToString(n) && |NatToString(n)| == 1
  {
  }

  lemma PaddedTwoOrMore(n: nat)
    requires n >= 10
    ensures Pad2(NatToString(n)) == NatToString(n)
    ensures n < 100 ==> |NatToString(n)| == 2
  {
    if n < 100 {
      assert |NatToString(n / 10)| == 1;
    }
  }

  /** The four boxes in the order of the state's fields: "Dni", "Godz", "Min", "Sek". */
  function Boxes(t: TimeLeft): (r: seq<Box>)
    requires t.days >= 0 && t.hours >= 0 && t.minutes >= 0 && t.seconds >= 0
    ensures |r| == 4
    ensures r[0].caption == "Dni" && r[1].caption == "Godz" && r[2].caption == "Min" && r[3].caption == "Sek"
    ensures r[0].value == Pad2(NatToString(t.days)) && r[1].value == Pad2(NatToString(t.hours))
    ensures r[2].value == Pad2(NatToString(t.minutes)) && r[3].value == Pad2(NatToString(t.seconds))
    ensures |r[0].value| >= 2 && |r[1].value| >= 2 && |r[2].value| >= 2 && |r[3].value| >= 2
  {
    [BoxOf(t.days, Days), BoxOf(t.hours, Hours), BoxOf(t.minutes, Minutes), BoxOf(t.seconds, Seconds)]
  }

  /** A single digit gets a leading zero; two or more digits are shown as they are. */
  lemma PaddedDigits(n: nat)
    ensures n < 10 ==> Pad2(NatToString(n)) == ['0'] + NatToString(n)
    ensures n >= 10 ==> Pad2(NatToString(n)) == NatToString(n)
  {
  }
}

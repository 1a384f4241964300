/** The countdown to the wedding shown on the main page: the remaining milliseconds split
    into days, hours, minutes and seconds, each shown with at least two digits. */
module Countdown {
  import opened Text
  import opened Modular

  const MsPerSecond: nat := 1000
  const MsPerMinute: nat := 1000 * 60
  const MsPerHour: nat := 1000 * 60 * 60
  const MsPerDay: nat := 1000 * 60 * 60 * 24

  /** The four numbers of the countdown, before formatting. */
  datatype Parts = Parts(days: nat, hours: nat, minutes: nat, seconds: nat)

  /** The text of the four countdown fields. */
  datatype Display = Display(days: string, hours: string, minutes: string, seconds: string)

  /** `Math.floor(distance / day)`, `Math.floor((distance % day) / hour)`, and so on. On a
      non-negative distance JavaScript's `%` and floored division agree with Dafny's. */
  function Split(distance: nat): (p: Parts)
    ensures p.hours < 24 && p.minutes < 60 && p.seconds < 60
  {
    Parts(distance / MsPerDay,
          (distance % MsPerDay) / MsPerHour,
          (distance % MsPerHour) / MsPerMinute,
          (distance % MsPerMinute) / MsPerSecond)
  }

  /** The milliseconds the four parts stand for. */
  function Total(p: Parts): nat
  {
    p.days * MsPerDay + p.hours * MsPerHour + p.minutes * MsPerMinute + p.seconds * MsPerSecond
  }

  /** `String(v).padStart(2, '0')` */
  function TwoDigits(v: nat): (s: string)
    ensures |s| >= 2 && AllDigits(s)
    ensures v < 100 ==> |s| == 2
  {
    DecimalWidth(v);
    PadStart(Decimal(v), 2, '0')
  }

  /** `updateCountdown` once its four elements are found: a passed date shows "00"
      everywhere, otherwise each part padded to two digits. */
  function Render(distance: int): (d: Display)
    ensures distance < 0 ==> d == Display("00", "00", "00", "00")
  {
    if distance < 0 then Display("00", "00", "00", "00")
    else
      var p := Split(distance);
      Display(TwoDigits(p.days), TwoDigits(p.hours), TwoDigits(p.minutes), TwoDigits(p.seconds))
  }

  lemma DecimalWidth(v: nat)
    ensures v < 100 ==> |Decimal(v)| <= 2
  {
    if 10 <= v < 100 {
      assert Decimal(v) == Decimal(v / 10) + [DigitChar(v % 10)];
    }
  }

  /** The parts account for the whole distance except the milliseconds below one second. */
  lemma SplitIsExact(distance: nat)
    ensures Total(Split(distance)) <= distance < Total(Split(distance)) + MsPerSecond
  {
    var p := Split(distance);
    var rDay := distance % MsPerDay;
    var rHour := distance % MsPerHour;
    var rMinute := distance % MsPerMinute;
    assert distance == p.days * MsPerDay + rDay;
    ModOfMultiple(distance, MsPerHour, 24);
    assert rDay == p.hours * MsPerHour + rHour;
    ModOfMultiple(distance, MsPerMinute, 60);
    assert rHour == p.minutes * MsPerMinute + rMinute;
    ModOfMultiple(distance, MsPerSecond, 60);
    assert rMinute == p.seconds * MsPerSecond + rMinute % MsPerSecond;
  }

  /** Reducing by a multiple of `m` first does not change the remainder modulo `m`. */
  lemma ModOfMultiple(x: nat, m: nat, k: nat)
    requires m > 0 && k > 0
    ensures (x % (m * k)) % m == x % m
    ensures (x % (m * k)) / m == (x / m) % k
  {
    var q, r := x / (m * k), x % (m * k);
    assert x == (m * k) * q + r;
    var a, b := r / m, r % m;
    assert r == m * a + b && a < k;
    assert x == m * (k * q + a) + b;
    ModUnique(x, m, k * q + a, b);
    ModUnique(k * q + a, k, q, a);
  }

  /** Every field of a shown countdown reads back as the number it stands for. */
  lemma RenderReadsBack(distance: nat)
    ensures var d, p := Render(distance), Split(distance);
      && Value(d.days) == p.days && Value(d.hours) == p.hours
      && Value(d.minutes) == p.minutes && Value(d.seconds) == p.seconds
      && |d.hours| == 2 && |d.minutes| == 2 && |d.seconds| == 2 && |d.days| >= 2
  {
    var p := Split(distance);
    ValueOfPadded(p.days, 2);
    ValueOfPadded(p.hours, 2);
    ValueOfPadded(p.minutes, 2);
    ValueOfPadded(p.seconds, 2);
  }
}

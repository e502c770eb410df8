/** `format_duration` (src/main.rs:1529-1542): the host's uptime in whole seconds shown
    with its two most significant units, starting from the first non-zero one among days,
    hours and minutes: `"3d 04h 05m"`, `"04h 05m"`, `"05m 06s"` or `"06s"`. Every unit
    after the leading one is padded to two digits; days are not padded. */
module Uptime {
  import opened Base
  import opened Text

  const SecondsPerMinute: nat := 60
  const SecondsPerHour: nat := 3600
  const SecondsPerDay: nat := 86400

  /** What the text shows: the leading unit and the one after it. */
  datatype Shown =
    | Days(days: nat, hours: nat, minutes: nat)
    | Hours(hours: nat, minutes: nat)
    | Minutes(minutes: nat, seconds: nat)
    | Seconds(seconds: nat)

  /** Units below the leading one are within their range, and the leading one is not zero
      (except for a bare seconds count). */
  predicate WellFormed(v: Shown) {
    match v
    case Days(d, h, m) => d > 0 && h < 24 && m < 60
    case Hours(h, m) => 0 < h < 24 && m < 60
    case Minutes(m, s) => 0 < m < 60 && s < 60
    case Seconds(s) => s < 60
  }

  /** The number of seconds a shown value stands for. */
  function Denotes(v: Shown): nat {
    match v
    case Days(d, h, m) => d * SecondsPerDay + h * SecondsPerHour + m * SecondsPerMinute
    case Hours(h, m) => h * SecondsPerHour + m * SecondsPerMinute
    case Minutes(m, s) => m * SecondsPerMinute + s
    case Seconds(s) => s
  }

  /** A duration split into days, hours of the day, minutes of the hour and seconds of the
      minute; the parts are in range and add up to the duration. */
  lemma Decompose(total: nat)
    ensures (total % SecondsPerDay) / SecondsPerHour < 24
    ensures (total % SecondsPerHour) / SecondsPerMinute < 60
    ensures total == (total / SecondsPerDay) * SecondsPerDay
                     + ((total % SecondsPerDay) / SecondsPerHour) * SecondsPerHour
                     + ((total % SecondsPerHour) / SecondsPerMinute) * SecondsPerMinute
                     + total % SecondsPerMinute
  {
    var q, a := total / SecondsPerDay, total % SecondsPerDay;
    assert total == q * 86400 + a && a < 86400;
    var h, b := a / SecondsPerHour, a % SecondsPerHour;
    assert a == h * 3600 + b && b < 3600;
    var k := q * 24 + h;
    assert total == k * 3600 + b;
    assert total % SecondsPerHour == b by {
      DivModUnique(total, 3600, k, b);
    }
  }

  /** Division with remainder has only one answer. */
  lemma DivModUnique(n: nat, d: nat, k: nat, r: nat)
    requires 0 <= r < d && n == k * d + r
    ensures n / d == k && n % d == r
  {
    var k', r' := n / d, n % d;
    assert (k - k') * d == r' - r;
    if k > k' {
      MulAtLeast(k - k', d);
    } else if k < k' {
      MulAtLeast(k' - k, d);
    }
  }

  /** The unit selection of `format_duration`: days, hours and minutes are computed from
      the total, and the first non-zero one leads. The minute field of the day and hour
      forms drops the seconds, so those forms denote the duration rounded down to the
      minute. */
  function Display(total: nat): (v: Shown)
    ensures WellFormed(v)
    ensures v.Days? <==> total >= SecondsPerDay
    ensures v.Hours? <==> SecondsPerHour <= total < SecondsPerDay
    ensures v.Minutes? <==> SecondsPerMinute <= total < SecondsPerHour
    ensures v.Seconds? <==> total < SecondsPerMinute
    ensures Denotes(v) == total - (if total >= SecondsPerHour then total % SecondsPerMinute else 0)
  {
    Decompose(total);
    var days := total / SecondsPerDay;
    var hours := (total % SecondsPerDay) / SecondsPerHour;
    var minutes := (total % SecondsPerHour) / SecondsPerMinute;
    var seconds := total % SecondsPerMinute;
    if days > 0 then Days(days, hours, minutes)
    else if hours > 0 then Hours(hours, minutes)
    else if minutes > 0 then Minutes(minutes, seconds)
    else Seconds(seconds)
  }

  /** The text of a shown value: `{}d {:02}h {:02}m`, `{:02}h {:02}m`, `{:02}m {:02}s`
      or `{:02}s`. */
  function Render(v: Shown): string {
    match v
    case Days(d, h, m) => NatToString(d) + "d " + Pad2(h) + "h " + Pad2(m) + "m"
    case Hours(h, m) => Pad2(h) + "h " + Pad2(m) + "m"
    case Minutes(m, s) => Pad2(m) + "m " + Pad2(s) + "s"
    case Seconds(s) => Pad2(s) + "s"
  }

  /** `format_duration`. It never returns `None`. */
  function FormatDuration(total: nat): (r: Option<string>)
    ensures r.Some?
    ensures |r.value| >= 3
  {
    Some(Render(Display(total)))
  }

  /** Reads back a rendered value. Each of the four forms is recognised by its length and
      by every unit letter and space in it, and each field by its digits: `NNs`,
      `NNm NNs`, `NNh NNm`, or `<digits>d NNh NNm`. */
  function ParseShown(s: string): Option<Shown> {
    if |s| == 3 && AllDigits(s[..2]) && s[2] == 's' then
      Some(Seconds(DigitsValue(s[..2])))
    else if |s| == 7 && AllDigits(s[..2]) && AllDigits(s[4..6])
            && s[2] == 'm' && s[3] == ' ' && s[6] == 's' then
      Some(Minutes(DigitsValue(s[..2]), DigitsValue(s[4..6])))
    else if |s| == 7 && AllDigits(s[..2]) && AllDigits(s[4..6])
            && s[2] == 'h' && s[3] == ' ' && s[6] == 'm' then
      Some(Hours(DigitsValue(s[..2]), DigitsValue(s[4..6])))
    else if |s| >= 10 && AllDigits(s[..|s| - 9]) && AllDigits(s[|s| - 7..|s| - 5])
            && AllDigits(s[|s| - 3..|s| - 1])
            && s[|s| - 9] == 'd' && s[|s| - 8] == ' ' && s[|s| - 5] == 'h' && s[|s| - 4] == ' '
            && s[|s| - 1] == 'm' then
      Some(Days(DigitsValue(s[..|s| - 9]), DigitsValue(s[|s| - 7..|s| - 5]),
                DigitsValue(s[|s| - 3..|s| - 1])))
    else None
  }

  /** Every well-formed value is rendered to a text that reads back as that value, so no
      two shown values share a text. */
  lemma RenderParses(v: Shown)
    requires WellFormed(v)
    ensures ParseShown(Render(v)) == Some(v)
  {
    match v
    case Seconds(s) =>
      var t := Render(v);
      assert t[..2] == Pad2(s);
    case Minutes(m, s) =>
      var t := Render(v);
      assert t[..2] == Pad2(m) && t[4..6] == Pad2(s);
    case Hours(h, m) =>
      var t := Render(v);
      assert t[..2] == Pad2(h) && t[4..6] == Pad2(m);
    case Days(d, h, m) =>
      RenderDaysParses(d, h, m);
  }

  lemma RenderDaysParses(d: nat, h: nat, m: nat)
    requires WellFormed(Days(d, h, m))
    ensures ParseShown(Render(Days(d, h, m))) == Some(Days(d, h, m))
  {
    var ds := NatToString(d);
    var hs, ms := Pad2(h), Pad2(m);
    var rest := "d " + hs + "h " + ms + "m";
    assert rest == ['d', ' ', hs[0], hs[1], 'h', ' ', ms[0], ms[1], 'm'];
    var t := ds + rest;
    assert Render(Days(d, h, m)) == t;
    var n := |t|;
    assert t[..n - 9] == ds;
    assert t[n - 7..n - 5] == hs;
    assert t[n - 3..n - 1] == ms;
    NatToStringValue(d);
  }

  /** The uptime text reads back as exactly the units `Display` chooses for the uptime,
      and denotes the uptime itself below an hour and the uptime rounded down to the
      minute from an hour on. */
  lemma FormatDurationRoundTrip(total: nat)
    ensures ParseShown(FormatDuration(total).value) == Some(Display(total))
    ensures Denotes(ParseShown(FormatDuration(total).value).value)
              == total - (if total >= SecondsPerHour then total % SecondsPerMinute else 0)
  {
    RenderParses(Display(total));
  }
}

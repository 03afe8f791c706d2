/**
 * The digital clock widget's formatting: the current time as HH:MM, with
 * ":SS" when seconds are shown and " AM"/" PM" in 12-hour mode, and the
 * colour classes of its four themes.
 *
 * The hours, minutes and seconds of the current time are parameters; reading
 * the clock is not modelled. The settings (format, theme, seconds shown) form
 * a value that the buttons replace.
 */
module Clock {

  datatype ClockFormat = TwelveHour | TwentyFourHour

  datatype ClockTheme = DefaultTheme | Dark | Light | Colorful

  datatype Settings = Settings(format: ClockFormat, theme: ClockTheme, showSeconds: bool)

  /** The settings at mount: 12-hour, default theme, seconds shown. */
  const InitialSettings := Settings(TwelveHour, DefaultTheme, true)

  const DarkClass := "bg-gray-800 text-white"
  const LightClass := "bg-gray-100 text-gray-800"
  const ColorfulClass := "bg-gradient-to-r from-purple-500 to-pink-500 text-white"
  const DefaultClass := "bg-secondary text-secondary-foreground"

  /** A time of day as the clock reads it. */
  predicate ValidTime(hours: nat, minutes: nat, seconds: nat) {
    hours < 24 && minutes < 60 && seconds < 60
  }

  predicate IsDigit(c: char) {
    '0' <= c <= '9'
  }

  function DigitChar(d: nat): (c: char)
    requires d < 10
    ensures IsDigit(c) && c as int - '0' as int == d
  {
    ('0' as int + d) as char
  }

  function DigitValue(c: char): (d: nat)
    requires IsDigit(c)
    ensures d < 10 && d == c as int - '0' as int
  {
    (c as int - '0' as int) as nat
  }

  /** `n.toString()` for a non-negative integer: its decimal digits, with no leading zero. */
  function ToDecimal(n: nat): (r: string)
    ensures |r| >= 1
    ensures forall i :: 0 <= i < |r| ==> IsDigit(r[i])
    ensures |r| == 1 <==> n < 10
    ensures |r| > 1 ==> r[0] != '0'
  {
    if n < 10 then [DigitChar(n)] else ToDecimal(n / 10) + [DigitChar(n % 10)]
  }

  /** The value of a string of decimal digits. */
  function ParseDecimal(s: string): nat
    requires forall i :: 0 <= i < |s| ==> IsDigit(s[i])
  {
    if s == [] then 0 else ParseDecimal(s[..|s| - 1]) * 10 + DigitValue(s[|s| - 1])
  }

  /** Reading a number's decimal digits back gives the number. */
  lemma {:induction false} DecimalRoundTrip(n: nat)
    ensures ParseDecimal(ToDecimal(n)) == n
  {
    if n >= 10 {
      var r := ToDecimal(n);
      assert r[..|r| - 1] == ToDecimal(n / 10);
      DecimalRoundTrip(n / 10);
    }
  }

  /** `s.padStart(width, fill)`: fill characters in front, up to the width; a longer string is kept. */
  function PadStart(s: string, width: nat, fill: char): (r: string)
    ensures |r| == if |s| >= width then |s| else width
    ensures r[|r| - |s|..] == s
    ensures forall i :: 0 <= i < |r| - |s| ==> r[i] == fill
    decreases width - |s|
  {
    if |s| >= width then s else PadStart([fill] + s, width, fill)
  }

  /** A number as the clock shows it: `n.toString().padStart(2, '0')`. */
  function TwoDigits(n: nat): (r: string)
    ensures |r| >= 2
    ensures forall i :: 0 <= i < |r| ==> IsDigit(r[i])
  {
    PadStart(ToDecimal(n), 2, '0')
  }

  /** Below 100, a number is shown as exactly two digits, its tens and its units. */
  lemma TwoDigitsExact(n: nat)
    requires n < 100
    ensures TwoDigits(n) == [DigitChar(n / 10), DigitChar(n % 10)]
  {
    if n >= 10 {
      assert ToDecimal(n) == [DigitChar(n / 10), DigitChar(n % 10)];
    } else {
      assert ToDecimal(n) == [DigitChar(n)];
      assert PadStart(ToDecimal(n), 2, '0') == PadStart(['0', DigitChar(n)], 2, '0');
    }
  }

  /** `s` is a two-digit field that reads as `n`. */
  predicate ReadsAs(s: string, n: nat) {
    |s| == 2 && IsDigit(s[0]) && IsDigit(s[1]) && DigitValue(s[0]) * 10 + DigitValue(s[1]) == n
  }

  /** Below 100, a number's two-digit rendering reads back as the number. */
  lemma TwoDigitsRoundTrip(n: nat)
    requires n < 100
    ensures ReadsAs(TwoDigits(n), n)
  {
    TwoDigitsExact(n);
    var t, u := n / 10, n % 10;
    assert DigitValue(DigitChar(t)) == t && DigitValue(DigitChar(u)) == u;
    assert t * 10 + u == n;
  }

  /** The hour shown: `hours % 12 || 12` in 12-hour mode, the hour itself in 24-hour mode. */
  function DisplayHour(hours: nat, format: ClockFormat): (r: nat)
    ensures format == TwentyFourHour ==> r == hours
    ensures format == TwelveHour ==> 1 <= r <= 12 && r % 12 == hours % 12
  {
    if format == TwelveHour then (if hours % 12 == 0 then 12 else hours % 12) else hours
  }

  /** The suffix: " PM" from noon on and " AM" before it in 12-hour mode, none in 24-hour mode. */
  function Period(hours: nat, format: ClockFormat): (r: string)
    ensures format == TwentyFourHour ==> r == ""
    ensures format == TwelveHour ==> (r == " PM" <==> hours >= 12) && (r == " AM" <==> hours < 12)
  {
    if format == TwelveHour then (if hours >= 12 then " PM" else " AM") else ""
  }

  /** The 12-hour rendering names each hour of the day: 0 is 12 AM, 12 is 12 PM, 13 to 23 are 1 PM to 11 PM. */
  lemma TwelveHourCases(hours: nat)
    requires hours < 24
    ensures hours == 0 ==> DisplayHour(hours, TwelveHour) == 12
    ensures 1 <= hours <= 12 ==> DisplayHour(hours, TwelveHour) == hours
    ensures hours > 12 ==> DisplayHour(hours, TwelveHour) == hours - 12
  {
  }

  /** The hour of the day that a 12-hour display and its period stand for. */
  function HourOfDay(shown: nat, pm: bool): nat {
    if pm then (if shown == 12 then 12 else shown + 12) else (if shown == 12 then 0 else shown)
  }

  /** The 12-hour display and the period together determine the hour of the day. */
  lemma TwelveHourRoundTrip(hours: nat)
    requires hours < 24
    ensures HourOfDay(DisplayHour(hours, TwelveHour), Period(hours, TwelveHour) == " PM") == hours
  {
  }

  /** `formatTime`: HH:MM, then ":SS" when seconds are shown, then the period. */
  function FormatTime(hours: nat, minutes: nat, seconds: nat, format: ClockFormat, showSeconds: bool): (r: string)
    ensures |r| >= (if showSeconds then 8 else 5) + |Period(hours, format)|
    ensures IsDigit(r[0]) && IsDigit(r[1])
    ensures r[|r| - |Period(hours, format)|..] == Period(hours, format)
  {
    var hh := TwoDigits(DisplayHour(hours, format));
    var front := hh + ":" + TwoDigits(minutes) + (if showSeconds then ":" + TwoDigits(seconds) else "");
    assert front[0] == hh[0] && front[1] == hh[1];
    front + Period(hours, format)
  }

  /**
   * Where the fields of `hh:mm[:ss]period` sit and how they read, for
   * two-digit fields hh, mm and ss.
   */
  lemma JoinLayout(hh: string, mm: string, ss: string, period: string,
                     h: nat, m: nat, sec: nat, showSeconds: bool)
    requires ReadsAs(hh, h) && ReadsAs(mm, m) && ReadsAs(ss, sec)
    ensures var r := hh + ":" + mm + (if showSeconds then ":" + ss else "") + period;
      && |r| == (if showSeconds then 8 else 5) + |period|
      && ReadsAs(r[0..2], h)
      && r[2] == ':'
      && ReadsAs(r[3..5], m)
      && (showSeconds ==> r[5] == ':' && ReadsAs(r[6..8], sec))
      && r[|r| - |period|..] == period
  {
    var rest := if showSeconds then ":" + ss else "";
    var r := hh + ":" + mm + rest + period;
    assert r == hh + ([':'] + (mm + (rest + period)));
    assert r[0..2] == hh;
    assert r[3..5] == mm;
    assert r[5..] == rest + period;
    if showSeconds {
      assert r[6..8] == ss;
    }
  }

  /**
   * The layout of a formatted time: two hour digits, ':', two minute digits,
   * then ':' and two second digits exactly when seconds are shown, then the
   * period; each two-digit field reads back as the value it shows.
   */
  lemma FormatTimeLayout(hours: nat, minutes: nat, seconds: nat, format: ClockFormat, showSeconds: bool)
    requires ValidTime(hours, minutes, seconds)
    ensures var r := FormatTime(hours, minutes, seconds, format, showSeconds);
      var p := |Period(hours, format)|;
      && |r| == (if showSeconds then 8 else 5) + p
      && p == (if format == TwelveHour then 3 else 0)
      && ReadsAs(r[0..2], DisplayHour(hours, format))
      && r[2] == ':'
      && ReadsAs(r[3..5], minutes)
      && (showSeconds ==> r[5] == ':' && ReadsAs(r[6..8], seconds))
      && r[|r| - p..] == Period(hours, format)
  {
    var h := DisplayHour(hours, format);
    TwoDigitsRoundTrip(h);
    TwoDigitsRoundTrip(minutes);
    TwoDigitsRoundTrip(seconds);
    JoinLayout(TwoDigits(h), TwoDigits(minutes), TwoDigits(seconds), Period(hours, format),
               h, minutes, seconds, showSeconds);
  }

  /** One string laid out as two renderings holds the same fields in both. */
  lemma FieldsAgree(r: string, d1: nat, m1: nat, s1: nat, p1: string,
                    d2: nat, m2: nat, s2: nat, p2: string, showSeconds: bool)
    requires |r| == (if showSeconds then 8 else 5) + |p1| == (if showSeconds then 8 else 5) + |p2|
    requires ReadsAs(r[0..2], d1) && ReadsAs(r[3..5], m1) && r[|r| - |p1|..] == p1
    requires ReadsAs(r[0..2], d2) && ReadsAs(r[3..5], m2) && r[|r| - |p2|..] == p2
    requires showSeconds ==> ReadsAs(r[6..8], s1) && ReadsAs(r[6..8], s2)
    ensures d1 == d2 && m1 == m2 && p1 == p2 && (showSeconds ==> s1 == s2)
  {
  }

  /** Two times with the same rendering show the same hour, period, minutes and (when shown) seconds. */
  lemma SameRenderingSameFields(h1: nat, m1: nat, s1: nat, h2: nat, m2: nat, s2: nat, format: ClockFormat, showSeconds: bool)
    requires ValidTime(h1, m1, s1) && ValidTime(h2, m2, s2)
    requires FormatTime(h1, m1, s1, format, showSeconds) == FormatTime(h2, m2, s2, format, showSeconds)
    ensures DisplayHour(h1, format) == DisplayHour(h2, format) && Period(h1, format) == Period(h2, format)
    ensures m1 == m2 && (showSeconds ==> s1 == s2)
  {
    var r := FormatTime(h1, m1, s1, format, showSeconds);
    FormatTimeLayout(h1, m1, s1, format, showSeconds);
    FormatTimeLayout(h2, m2, s2, format, showSeconds);
    FieldsAgree(r, DisplayHour(h1, format), m1, s1, Period(h1, format),
                DisplayHour(h2, format), m2, s2, Period(h2, format), showSeconds);
  }

  /** Different times of day never look alike: the rendering is injective on the fields it shows. */
  lemma FormatTimeInjective(h1: nat, m1: nat, s1: nat, h2: nat, m2: nat, s2: nat, format: ClockFormat, showSeconds: bool)
    requires ValidTime(h1, m1, s1) && ValidTime(h2, m2, s2)
    requires FormatTime(h1, m1, s1, format, showSeconds) == FormatTime(h2, m2, s2, format, showSeconds)
    ensures h1 == h2 && m1 == m2 && (showSeconds ==> s1 == s2)
  {
    SameRenderingSameFields(h1, m1, s1, h2, m2, s2, format, showSeconds);
    if format == TwelveHour {
      TwelveHourRoundTrip(h1);
      TwelveHourRoundTrip(h2);
    }
  }

  /** `getThemeClass`: the dark, light and colorful themes have their own classes, anything else the default. */
  function ThemeClass(theme: ClockTheme): (r: string)
    ensures theme !in {Dark, Light, Colorful} ==> r == DefaultClass
    ensures r == DefaultClass <==> theme == DefaultTheme
  {
    match theme
    case Dark => DarkClass
    case Light => LightClass
    case Colorful => ColorfulClass
    case _ => DefaultClass
  }

  /** Each theme has a class of its own. */
  lemma ThemeClassInjective(a: ClockTheme, b: ClockTheme)
    ensures ThemeClass(a) == ThemeClass(b) ==> a == b
  {
  }

  /** The format button: 12-hour becomes 24-hour and back, nothing else changes. */
  function ToggleFormat(s: Settings): (r: Settings)
    ensures r.format != s.format
    ensures r.theme == s.theme && r.showSeconds == s.showSeconds
  {
    s.(format := if s.format == TwelveHour then TwentyFourHour else TwelveHour)
  }

  /** The seconds button: flips whether seconds are shown, nothing else changes. */
  function ToggleSeconds(s: Settings): (r: Settings)
    ensures r.showSeconds != s.showSeconds
    ensures r.format == s.format && r.theme == s.theme
  {
    s.(showSeconds := !s.showSeconds)
  }

  /** A theme button: selects that theme, nothing else changes. */
  function SetTheme(s: Settings, theme: ClockTheme): (r: Settings)
    ensures r.theme == theme && r.format == s.format && r.showSeconds == s.showSeconds
  {
    s.(theme := theme)
  }

  /** Pressing either toggle twice restores the settings. */
  lemma TogglesInvolutive(s: Settings)
    ensures ToggleFormat(ToggleFormat(s)) == s
    ensures ToggleSeconds(ToggleSeconds(s)) == s
  {
  }
}

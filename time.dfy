/**
 * Relative-time labels: the elapsed milliseconds are floored to seconds,
 * minutes, hours and days, and the first bucket that applies is chosen.
 */
module RelativeTime {
  import opened Wrappers
  import opened Clock

  /** Floored elapsed seconds, minutes, hours and days. */
  datatype Elapsed = Elapsed(sec: int, min: int, hour: int, day: int)

  /** Flooring by `b` and then by `c` is flooring by `b * c` (stated for the three divisor pairs the source uses). */
  lemma FloorThenFloor(a: int, b: int, c: int)
    requires (b, c) in {(SecondMs, 60), (MinuteMs, 60), (HourMs, 24)}
    ensures (a / b) / c == a / (b * c)
  {
    var q := a / b;
    var q2 := q / c;
    if b == SecondMs {
      assert 1000 * q <= a < 1000 * q + 1000;
      assert 60 * q2 <= q < 60 * q2 + 60;
      assert 60000 * q2 <= a < 60000 * q2 + 60000;
    } else if b == MinuteMs {
      assert 60000 * q <= a < 60000 * q + 60000;
      assert 60 * q2 <= q < 60 * q2 + 60;
      assert 3600000 * q2 <= a < 3600000 * q2 + 3600000;
    } else {
      assert 3600000 * q <= a < 3600000 * q + 3600000;
      assert 24 * q2 <= q < 24 * q2 + 24;
      assert 86400000 * q2 <= a < 86400000 * q2 + 86400000;
    }
  }

  /**
   * The chained `Math.floor` divisions, each applied to the previous result;
   * they agree with dividing the elapsed milliseconds directly.
   */
  function NestedFloors(diffMs: int): (e: Elapsed)
    ensures e == Elapsed(diffMs / SecondMs, diffMs / MinuteMs, diffMs / HourMs, diffMs / DayMs)
  {
    var sec := diffMs / 1000;
    var min := sec / 60;
    var hour := min / 60;
    FloorThenFloor(diffMs, SecondMs, 60);
    FloorThenFloor(diffMs, MinuteMs, 60);
    FloorThenFloor(diffMs, HourMs, 24);
    Elapsed(sec, min, hour, hour / 24)
  }

  /** The label a elapsed time falls into. */
  datatype Bucket =
    | JustNow
    | MinutesAgo(minutes: nat)
    | HoursAgo(hours: nat)
    | Yesterday
    | DaysAgo(days: nat)
    | OnDate

  /**
   * The if-chain of `formatRelativeTime`. Each bucket holds for exactly one
   * range of elapsed milliseconds, so the buckets are mutually exclusive and
   * cover every value (a future time, with a negative difference, is "just now").
   */
  function Classify(diffMs: int): (b: Bucket)
    ensures b == JustNow <==> diffMs < MinuteMs
    ensures b.MinutesAgo? <==> MinuteMs <= diffMs < HourMs
    ensures b.MinutesAgo? ==> b.minutes == diffMs / MinuteMs && 1 <= b.minutes <= 59
    ensures b.HoursAgo? <==> HourMs <= diffMs < DayMs
    ensures b.HoursAgo? ==> b.hours == diffMs / HourMs && 1 <= b.hours <= 23
    ensures b == Yesterday <==> DayMs <= diffMs < 2 * DayMs
    ensures b.DaysAgo? <==> 2 * DayMs <= diffMs < 7 * DayMs
    ensures b.DaysAgo? ==> b.days == diffMs / DayMs && 2 <= b.days <= 6
    ensures b == OnDate <==> 7 * DayMs <= diffMs
  {
    var e := NestedFloors(diffMs);
    if e.sec < 60 then JustNow
    else if e.min < 60 then MinutesAgo(e.min)
    else if e.hour < 24 then HoursAgo(e.hour)
    else if e.day == 1 then Yesterday
    else if e.day < 7 then DaysAgo(e.day)
    else OnDate
  }

  /** `locale.startsWith('ru')`. */
  predicate IsRu(locale: string): (b: bool)
    ensures b <==> |locale| >= 2 && locale[0] == 'r' && locale[1] == 'u'
  {
    |locale| >= 2 && locale[..2] == "ru"
  }

  predicate IsDigit(c: char)
  {
    '0' <= c <= '9'
  }

  /** The number a string of decimal digits denotes, most significant digit first. */
  function DigitsValue(s: string): nat
    requires forall i :: 0 <= i < |s| ==> IsDigit(s[i])
  {
    if s == [] then 0
    else
      assert IsDigit(s[|s| - 1]);
      10 * DigitsValue(s[..|s| - 1]) + (s[|s| - 1] as int - '0' as int)
  }

  /**
   * A number's decimal digits, as a template literal prints a non-negative
   * integer: digits only, no leading zero, denoting `n`.
   */
  function Decimal(n: nat): (s: string)
    ensures |s| >= 1
    ensures forall i :: 0 <= i < |s| ==> IsDigit(s[i])
    ensures DigitsValue(s) == n
    ensures s[0] == '0' ==> s == "0"
  {
    if n < 10 then [('0' as int + n) as char]
    else
      var s := Decimal(n / 10) + [('0' as int + n % 10) as char];
      assert s[..|s| - 1] == Decimal(n / 10);
      s
  }

  predicate IsCyrillic(c: char)
  {
    '\U{0400}' <= c <= '\U{04FF}'
  }

  predicate HasCyrillic(s: string)
  {
    exists i :: 0 <= i < |s| && IsCyrillic(s[i])
  }

  predicate IsAscii(s: string)
  {
    forall i :: 0 <= i < |s| ==> s[i] < '\U{0080}'
  }

  lemma AsciiConcat(a: string, b: string)
    ensures IsAscii(a + b) <==> IsAscii(a) && IsAscii(b)
  {
    if IsAscii(a + b) {
      forall i | 0 <= i < |a| ensures a[i] < '\U{0080}' {
        assert (a + b)[i] == a[i];
      }
      forall i | 0 <= i < |b| ensures b[i] < '\U{0080}' {
        assert (a + b)[i + |a|] == b[i];
      }
    }
  }

  /**
   * Text in front of a bucket's words: the printed count for the three
   * buckets that have one, and nothing otherwise.
   */
  function Count(b: Bucket): (s: string)
    ensures IsAscii(s)
    ensures s != [] <==> b.MinutesAgo? || b.HoursAgo? || b.DaysAgo?
    ensures forall i :: 0 <= i < |s| ==> IsDigit(s[i])
    ensures b.MinutesAgo? ==> DigitsValue(s) == b.minutes
    ensures b.HoursAgo? ==> DigitsValue(s) == b.hours
    ensures b.DaysAgo? ==> DigitsValue(s) == b.days
  {
    match b
    case MinutesAgo(m) => Decimal(m)
    case HoursAgo(h) => Decimal(h)
    case DaysAgo(d) => Decimal(d)
    case _ => ""
  }

  /**
   * A bucket's words, in Russian or English. The Russian words contain
   * Cyrillic letters and the English ones are ASCII; after a count they
   * start with a space.
   */
  function Words(b: Bucket, ru: bool): (s: string)
    ensures b == OnDate <==> s == ""
    ensures b != OnDate && ru ==> HasCyrillic(s)
    ensures b != OnDate && !ru ==> IsAscii(s) && !HasCyrillic(s)
    ensures b.MinutesAgo? || b.HoursAgo? || b.DaysAgo? ==> s[0] == ' '
  {
    var s := match b
      case JustNow => if ru then "только что" else "just now"
      case MinutesAgo(_) => if ru then " мин назад" else " min ago"
      case HoursAgo(_) => if ru then " ч назад" else " h ago"
      case Yesterday => if ru then "вчера" else "yesterday"
      case DaysAgo(_) => if ru then " дн назад" else " d ago"
      case OnDate => "";
    if b != OnDate && ru then
      var k := if b.JustNow? || b.Yesterday? then 0 else 1;
      assert IsCyrillic(s[k]);
      s
    else
      AsciiNotCyrillic(s);
      s
  }

  /** ASCII text has no Cyrillic letters. */
  lemma AsciiNotCyrillic(s: string)
    requires IsAscii(s)
    ensures !HasCyrillic(s)
  {
  }

  /** An ASCII prefix neither adds nor hides Cyrillic letters. */
  lemma CyrillicAfterAscii(a: string, w: string)
    requires IsAscii(a)
    ensures HasCyrillic(a + w) <==> HasCyrillic(w)
  {
    if HasCyrillic(a + w) {
      var i :| 0 <= i < |a + w| && IsCyrillic((a + w)[i]);
      assert i >= |a|;
      assert (a + w)[i] == w[i - |a|];
    }
    if HasCyrillic(w) {
      var j :| 0 <= j < |w| && IsCyrillic(w[j]);
      assert (a + w)[j + |a|] == w[j];
    }
  }

  /**
   * The text for a bucket, in Russian or English; `localeDate` is
   * `toLocaleDateString(locale)`. Apart from the date, the text is Russian
   * exactly when `ru` holds: it then contains Cyrillic letters, and otherwise
   * it is plain ASCII.
   */
  function Render(b: Bucket, ru: bool, localeDate: string): (s: string)
    ensures b != OnDate ==> (HasCyrillic(s) <==> ru)
    ensures b != OnDate && !ru ==> IsAscii(s)
    ensures b == OnDate ==> s == localeDate
  {
    if b == OnDate then localeDate
    else
      CyrillicAfterAscii(Count(b), Words(b, ru));
      AsciiConcat(Count(b), Words(b, ru));
      Count(b) + Words(b, ru)
  }

  /** The text `Render` gives for each bucket, written out. */
  lemma RenderText(b: Bucket, ru: bool, localeDate: string)
    ensures Render(b, ru, localeDate) == match b
      case JustNow => if ru then "только что" else "just now"
      case MinutesAgo(m) => Decimal(m) + if ru then " мин назад" else " min ago"
      case HoursAgo(h) => Decimal(h) + if ru then " ч назад" else " h ago"
      case Yesterday => if ru then "вчера" else "yesterday"
      case DaysAgo(d) => Decimal(d) + if ru then " дн назад" else " d ago"
      case OnDate => localeDate
  {
  }

  /**
   * `formatRelativeTime`. `parsed` is the parsed time in milliseconds (None when
   * the string does not parse) and `now` the clock reading. Each label is
   * stated on the elapsed milliseconds directly.
   */
  function FormatRelativeTime(parsed: Option<int>, now: int, locale: string, localeDate: string): (s: string)
    ensures parsed.None? ==> s == ""
    ensures parsed.Some? && now - parsed.value < MinuteMs ==>
      s == if IsRu(locale) then "только что" else "just now"
    ensures parsed.Some? && MinuteMs <= now - parsed.value < HourMs ==>
      s == Decimal((now - parsed.value) / MinuteMs) + if IsRu(locale) then " мин назад" else " min ago"
    ensures parsed.Some? && HourMs <= now - parsed.value < DayMs ==>
      s == Decimal((now - parsed.value) / HourMs) + if IsRu(locale) then " ч назад" else " h ago"
    ensures parsed.Some? && DayMs <= now - parsed.value < 2 * DayMs ==>
      s == if IsRu(locale) then "вчера" else "yesterday"
    ensures parsed.Some? && 2 * DayMs <= now - parsed.value < 7 * DayMs ==>
      s == Decimal((now - parsed.value) / DayMs) + if IsRu(locale) then " дн назад" else " d ago"
    ensures parsed.Some? && 7 * DayMs <= now - parsed.value ==> s == localeDate
  {
    match parsed
    case None => ""
    case Some(t) =>
      var b := Classify(now - t);
      RenderText(b, IsRu(locale), localeDate);
      Render(b, IsRu(locale), localeDate)
  }

  /** A time in the future, or less than a minute ago, reads "just now" in the chosen language. */
  lemma RecentIsJustNow(sent: int, now: int, locale: string, localeDate: string)
    requires now - sent < MinuteMs
    ensures FormatRelativeTime(Some(sent), now, locale, localeDate)
      == if IsRu(locale) then "только что" else "just now"
  {
  }

  /** Ninety minutes ago is "1 h ago" in English. */
  lemma NinetyMinutesExample(now: int)
    ensures FormatRelativeTime(Some(now - 90 * MinuteMs), now, "en-US", "") == "1 h ago"
  {
    assert now - (now - 90 * MinuteMs) == 90 * MinuteMs;
    assert Classify(90 * MinuteMs) == HoursAgo(1);
    assert Decimal(1) == "1";
    assert !IsRu("en-US") by {
      assert "en-US"[..2][0] == 'e';
    }
    assert Render(HoursAgo(1), false, "") == "1" + " h ago";
  }
}

/**
 * readable_time_delta: a count of seconds as days, hours and whole minutes
 * ("8 days, 3 hours and 10 minutes"); leftover seconds are dropped.
 */
module ReadableTime {
  import opened Strings
  import opened Time

  /** The plural ending, used for counts above one. */
  function Plural(n: nat): string { if n > 1 then "s" else "" }

  function Quantity(n: nat, unit: string): string
  {
    NatToString(n) + " " + unit + Plural(n)
  }

  function MinutesPart(minutes: nat): string { Quantity(minutes, "minute") }

  function HoursPart(hours: nat, minutes: nat): string
  {
    if hours != 0 then Quantity(hours, "hour") + " and " + MinutesPart(minutes) else MinutesPart(minutes)
  }

  /** Days, hours and minutes: the day and hour parts appear only when not zero. */
  function Phrase(days: nat, hours: nat, minutes: nat): string
  {
    if days != 0 then Quantity(days, "day") + ", " + HoursPart(hours, minutes) else HoursPart(hours, minutes)
  }

  function ReadableTimeDelta(seconds: nat): string
  {
    Phrase(seconds / Day, seconds % Day / Hour, seconds % Hour / Minute)
  }

  lemma DivMod60(n: int, q: int, r: int)
    requires n == 60 * q + r && 0 <= r < 60
    ensures n / 60 == q && n % 60 == r
  {
  }

  lemma DivMod3600(n: int, q: int, r: int)
    requires n == 3600 * q + r && 0 <= r < 3600
    ensures n / 3600 == q && n % 3600 == r
  {
  }

  lemma DivMod86400(n: int, q: int, r: int)
    requires n == 86400 * q + r && 0 <= r < 86400
    ensures n / 86400 == q && n % 86400 == r
  {
  }

  /**
   * The text names the days, the hours under a day and the minutes under an
   * hour of the duration, whatever its leftover seconds.
   */
  lemma ReadableTimeDeltaOfParts(days: nat, hours: nat, minutes: nat, seconds: nat)
    requires hours < 24 && minutes < 60 && seconds < 60
    ensures ReadableTimeDelta(days * Day + hours * Hour + minutes * Minute + seconds) == Phrase(days, hours, minutes)
  {
    DurationParts(days, hours, minutes, seconds);
  }

  lemma DurationParts(days: nat, hours: nat, minutes: nat, seconds: nat)
    requires hours < 24 && minutes < 60 && seconds < 60
    ensures var x := days * Day + hours * Hour + minutes * Minute + seconds;
      x / Day == days && x % Day / Hour == hours && x % Hour / Minute == minutes
  {
    var x := days * Day + hours * Hour + minutes * Minute + seconds;
    DivMod86400(x, days, hours * 3600 + minutes * 60 + seconds);
    DivMod3600(hours * 3600 + minutes * 60 + seconds, hours, minutes * 60 + seconds);
    DivMod3600(x, days * 24 + hours, minutes * 60 + seconds);
    DivMod60(minutes * 60 + seconds, minutes, seconds);
  }

  /** A number followed by a space can be read back off the front of a string. */
  lemma LeadingNumber(a: nat, b: nat, u: string, v: string)
    requires NatToString(a) + (" " + u) == NatToString(b) + (" " + v)
    ensures a == b && u == v
  {
    var A, B := NatToString(a), NatToString(b);
    var L, R := A + (" " + u), B + (" " + v);
    var k := if |A| <= |B| then |A| else |B|;
    assert L[k] == R[k];
    assert |A| == |B|;
    assert A == L[..|A|] && B == R[..|B|];
    DigitsValueOfNatToString(a);
    DigitsValueOfNatToString(b);
    assert u == L[|A| + 1..] && v == R[|B| + 1..];
  }

  /** Two strings that agree after a common prefix agree. */
  lemma DropCommonPrefix(p: string, u: string, v: string)
    requires p + u == p + v
    ensures u == v
  {
    assert u == (p + u)[|p|..] && v == (p + v)[|p|..];
  }

  /** The number at the front of the phrase. */
  function Lead(days: nat, hours: nat, minutes: nat): nat
  {
    if days != 0 then days else if hours != 0 then hours else minutes
  }

  /** What follows the leading number and its space. */
  function Tail(days: nat, hours: nat, minutes: nat): string
  {
    if days != 0 then "day" + Plural(days) + ", " + HoursPart(hours, minutes)
    else if hours != 0 then "hour" + Plural(hours) + " and " + MinutesPart(minutes)
    else "minute" + Plural(minutes)
  }

  lemma Regroup(n: string, w: string, rest: string)
    ensures n + " " + w + rest == n + (" " + (w + rest))
  {
  }

  lemma PhraseShapeDays(days: nat, hours: nat, minutes: nat)
    requires days != 0
    ensures Phrase(days, hours, minutes) == NatToString(days) + (" " + Tail(days, hours, minutes))
  {
    var hp := HoursPart(hours, minutes);
    var n, w, rest := NatToString(days), "day" + Plural(days), ", " + hp;
    assert Phrase(days, hours, minutes) == n + " " + w + rest;
    assert Tail(days, hours, minutes) == w + rest;
    Regroup(n, w, rest);
  }

  lemma PhraseShapeHours(hours: nat, minutes: nat)
    requires hours != 0
    ensures Phrase(0, hours, minutes) == NatToString(hours) + (" " + Tail(0, hours, minutes))
  {
    var n, w, rest := NatToString(hours), "hour" + Plural(hours), " and " + MinutesPart(minutes);
    assert Phrase(0, hours, minutes) == n + " " + w + rest;
    assert Tail(0, hours, minutes) == w + rest;
    Regroup(n, w, rest);
  }

  lemma PhraseShapeMinutes(minutes: nat)
    ensures Phrase(0, 0, minutes) == NatToString(minutes) + (" " + Tail(0, 0, minutes))
  {
  }

  lemma PhraseShape(days: nat, hours: nat, minutes: nat)
    ensures Phrase(days, hours, minutes) == NatToString(Lead(days, hours, minutes)) + (" " + Tail(days, hours, minutes))
    ensures Tail(days, hours, minutes)[0] == if days != 0 then 'd' else if hours != 0 then 'h' else 'm'
  {
    if days != 0 {
      PhraseShapeDays(days, hours, minutes);
    } else if hours != 0 {
      PhraseShapeHours(hours, minutes);
    } else {
      PhraseShapeMinutes(minutes);
    }
  }

  /** Different hours or minutes always read differently. */
  lemma HoursPartInjective(h1: nat, m1: nat, h2: nat, m2: nat)
    requires HoursPart(h1, m1) == HoursPart(h2, m2)
    ensures h1 == h2 && m1 == m2
  {
    PhraseShape(0, h1, m1);
    PhraseShape(0, h2, m2);
    LeadingNumber(Lead(0, h1, m1), Lead(0, h2, m2), Tail(0, h1, m1), Tail(0, h2, m2));
    assert Tail(0, h1, m1)[0] == Tail(0, h2, m2)[0];
    if h1 != 0 {
      var p := "hour" + Plural(h1) + " and ";
      assert Tail(0, h1, m1) == p + MinutesPart(m1);
      assert Tail(0, h2, m2) == p + MinutesPart(m2);
      DropCommonPrefix(p, MinutesPart(m1), MinutesPart(m2));
      PhraseShape(0, 0, m1);
      PhraseShape(0, 0, m2);
      LeadingNumber(m1, m2, Tail(0, 0, m1), Tail(0, 0, m2));
    }
  }

  /** Different days, hours or minutes always read differently. */
  lemma PhraseInjective(d1: nat, h1: nat, m1: nat, d2: nat, h2: nat, m2: nat)
    requires Phrase(d1, h1, m1) == Phrase(d2, h2, m2)
    ensures d1 == d2 && h1 == h2 && m1 == m2
  {
    PhraseShape(d1, h1, m1);
    PhraseShape(d2, h2, m2);
    LeadingNumber(Lead(d1, h1, m1), Lead(d2, h2, m2), Tail(d1, h1, m1), Tail(d2, h2, m2));
    assert Tail(d1, h1, m1)[0] == Tail(d2, h2, m2)[0];
    if d1 != 0 {
      var p := "day" + Plural(d1) + ", ";
      assert Tail(d1, h1, m1) == p + HoursPart(h1, m1);
      assert Tail(d2, h2, m2) == p + HoursPart(h2, m2);
      DropCommonPrefix(p, HoursPart(h1, m1), HoursPart(h2, m2));
    }
    HoursPartInjective(h1, m1, h2, m2);
  }

  /** The days, hours under a day and minutes under an hour of s, read off its count of whole minutes. */
  lemma MinuteParts(s: nat)
    ensures var total := s / Minute;
      && s / Day == total / 1440
      && s % Day / Hour == total % 1440 / 60
      && s % Hour / Minute == total % 60
      && total == 1440 * (total / 1440) + 60 * (total % 1440 / 60) + total % 60
  {
    var total, r := s / 60, s % 60;
    var q, r2 := total / 1440, total % 1440;
    var h, m := r2 / 60, r2 % 60;
    MinuteSplit(s, total, r, q, h, m);
    DivMod60(total, 24 * q + h, m);
  }

  lemma MinuteSplit(s: int, total: int, r: int, q: nat, h: nat, m: nat)
    requires s == 60 * total + r && 0 <= r < 60
    requires total == 1440 * q + 60 * h + m && h < 24 && m < 60
    ensures s / Day == q && s % Day / Hour == h && s % Hour / Minute == m
  {
    DurationParts(q, h, m, r);
  }

  /** Two durations read the same exactly when they hold the same number of whole minutes. */
  lemma ReadableTimeDeltaNamesWholeMinutes(s1: nat, s2: nat)
    ensures ReadableTimeDelta(s1) == ReadableTimeDelta(s2) <==> s1 / Minute == s2 / Minute
  {
    MinuteParts(s1);
    MinuteParts(s2);
    if ReadableTimeDelta(s1) == ReadableTimeDelta(s2) {
      PhraseInjective(s1 / Day, s1 % Day / Hour, s1 % Hour / Minute, s2 / Day, s2 % Day / Hour, s2 % Hour / Minute);
    }
  }
}

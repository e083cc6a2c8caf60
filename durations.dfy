/** The duration labels of the course pages: "Hh Mm" on the catalogue card
    and the course page, "H:MM" in the backoffice table. */
module Durations {
  import opened Wrappers
  import opened Text

  /** `formatDuration` of the course card and the course page. */
  function FormatDuration(minutes: nat): string
  {
    var hours := minutes / 60;
    var mins := minutes % 60;
    if hours > 0 then NatToString(hours) + "h " + NatToString(mins) + "m" else NatToString(mins) + "m"
  }

  /** Reads a label back: "Hh Mm" or "Mm", in decimal digits. */
  function ParseDuration(s: string): (r: Option<nat>)
  {
    if |s| < 2 || s[|s| - 1] != 'm' then None else ParseBody(s[..|s| - 1])
  }

  /** The label without its final `m`. */
  function ParseBody(body: string): Option<nat>
  {
    var hs := BeforeFirst(body, 'h');
    if |hs| == |body| then ParseDigits(body) else ParseWithHours(hs, body[|hs| + 1..])
  }

  function ParseDigits(t: string): Option<nat>
  {
    if AllDigits(t) then Some(ParseNat(t)) else None
  }

  /** The hours before the `h`, then a space and the minutes. */
  function ParseWithHours(hs: string, after: string): Option<nat>
  {
    if |hs| == 0 || |after| < 2 || after[0] != ' ' then None
    else if AllDigits(hs) && AllDigits(after[1..]) then Some(ParseNat(hs) * 60 + ParseNat(after[1..]))
    else None
  }

  /** The text before a separator the prefix does not contain. */
  lemma {:induction false} BeforeFirstAt(a: string, sep: char, b: string)
    requires sep !in a
    ensures BeforeFirst(a + [sep] + b, sep) == a
  {
    if a != [] {
      assert (a + [sep] + b)[1..] == a[1..] + [sep] + b;
      BeforeFirstAt(a[1..], sep, b);
    }
  }

  lemma DigitsHaveNo(s: string, c: char)
    requires AllDigits(s) && !IsDigit(c)
    ensures c !in s
  {
  }

  /** Every label reads back as the minutes it was made from. */
  lemma ParseFormatDuration(minutes: nat)
    ensures ParseDuration(FormatDuration(minutes)) == Some(minutes)
  {
    var hours, mins := minutes / 60, minutes % 60;
    if hours > 0 {
      assert FormatDuration(minutes) == NatToString(hours) + "h " + NatToString(mins) + "m";
      ParseHoursLabel(hours, mins);
      assert hours * 60 + mins == minutes;
    } else {
      assert FormatDuration(minutes) == NatToString(minutes) + "m";
      ParseMinutesLabel(minutes);
    }
  }

  lemma ParseHoursLabel(hours: nat, mins: nat)
    requires hours > 0
    ensures ParseDuration(NatToString(hours) + "h " + NatToString(mins) + "m") == Some(hours * 60 + mins)
  {
    ParseNatToString(hours);
    ParseNatToString(mins);
    ParseHoursShape(NatToString(hours), NatToString(mins));
  }

  /** How a label with hours is read: the digits before the `h` and the
      digits after the space. */
  lemma ParseHoursShape(hs: string, ms: string)
    requires |hs| > 0 && |ms| > 0 && AllDigits(hs) && AllDigits(ms)
    ensures ParseDuration(hs + "h " + ms + "m") == Some(ParseNat(hs) * 60 + ParseNat(ms))
  {
    var tail := " " + ms;
    var body := hs + ['h'] + tail;
    var s := body + "m";
    assert hs + "h " + ms + "m" == s;
    assert s[..|s| - 1] == body;
    assert s[|s| - 1] == 'm';
    DigitsHaveNo(hs, 'h');
    BeforeFirstAt(hs, 'h', tail);
    var after := body[|hs| + 1..];
    assert after == tail;
    assert after[0] == ' ' && after[1..] == ms;
    WithHoursAfterSpace(hs, ms);
    assert ParseBody(body) == ParseWithHours(hs, after);
    assert ParseDuration(s) == ParseBody(body);
  }

  lemma WithHoursAfterSpace(hs: string, ms: string)
    requires |hs| > 0 && |ms| > 0 && AllDigits(hs) && AllDigits(ms)
    ensures ParseWithHours(hs, " " + ms) == Some(ParseNat(hs) * 60 + ParseNat(ms))
  {
    var after := " " + ms;
    assert after[1..] == ms;
  }

  lemma ParseMinutesLabel(mins: nat)
    ensures ParseDuration(NatToString(mins) + "m") == Some(mins)
  {
    var ms := NatToString(mins);
    ParseNatToString(mins);
    var s := ms + "m";
    assert s[..|s| - 1] == ms;
    DigitsHaveNo(ms, 'h');
    BeforeFirstAt(ms, 'h', []);
    assert ms + ['h'] + [] == ms + ['h'];
    NoSepWhole(ms, 'h');
  }

  /** Without the separator the whole string comes back. */
  lemma {:induction false} NoSepWhole(s: string, sep: char)
    requires sep !in s
    ensures BeforeFirst(s, sep) == s
  {
    if s != [] {
      NoSepWhole(s[1..], sep);
    }
  }

  /** The label names hours exactly from one hour on. */
  lemma FormatDurationHasHours(minutes: nat)
    ensures minutes >= 60 <==> 'h' in FormatDuration(minutes)
  {
    var s := FormatDuration(minutes);
    var ms := NatToString(minutes % 60);
    DigitsHaveNo(ms, 'h');
    if minutes >= 60 {
      var hstr := NatToString(minutes / 60);
      assert s[|hstr|] == 'h';
    } else {
      assert s == ms + "m";
      assert 'h' !in "m";
    }
  }

  /** `formatDuration` of the backoffice table: hours, a colon and the
      minutes padded to two digits; "0:MM" under an hour. */
  function FormatClock(minutes: nat): string
  {
    var hours := minutes / 60;
    var mins := minutes % 60;
    if hours > 0 then NatToString(hours) + ":" + PadTwo(NatToString(mins))
    else "0:" + PadTwo(NatToString(mins))
  }

  /** Reads an "H:MM" label back. */
  function ParseClock(s: string): (r: Option<nat>)
  {
    var hs := BeforeFirst(s, ':');
    if |hs| == 0 || |hs| + 3 != |s| then None
    else
      var ms := s[|hs| + 1..];
      if AllDigits(hs) && AllDigits(ms) && ParseNat(ms) < 60 then Some(ParseNat(hs) * 60 + ParseNat(ms)) else None
  }

  lemma NatToStringShort(n: nat)
    requires n < 100
    ensures |NatToString(n)| <= 2
    ensures n < 10 ==> NatToString(n) == [DigitChar(n)]
  {
  }

  /** The padded minutes are two digits that read back as the minutes. */
  lemma PaddedMinutes(m: nat)
    requires m < 60
    ensures |PadTwo(NatToString(m))| == 2 && AllDigits(PadTwo(NatToString(m)))
    ensures ParseNat(PadTwo(NatToString(m))) == m
  {
    NatToStringShort(m);
    var p := PadTwo(NatToString(m));
    if m < 10 {
      assert p == ['0', DigitChar(m)];
      assert p[..1] == ['0'];
      assert ParseNat(['0']) == 0 by { assert ['0'][..0] == []; }
    } else {
      ParseNatToString(m);
    }
  }

  /** The two branches agree: the hours are written in decimal in both. */
  lemma FormatClockUniform(minutes: nat)
    ensures FormatClock(minutes) == NatToString(minutes / 60) + ":" + PadTwo(NatToString(minutes % 60))
  {
  }

  /** Every clock label reads back as the minutes it was made from. */
  lemma ParseFormatClock(minutes: nat)
    ensures ParseClock(FormatClock(minutes)) == Some(minutes)
  {
    var hstr := NatToString(minutes / 60);
    var ms := PadTwo(NatToString(minutes % 60));
    PaddedMinutes(minutes % 60);
    ParseNatToString(minutes / 60);
    FormatClockUniform(minutes);
    var s := FormatClock(minutes);
    assert s == hstr + [':'] + ms;
    DigitsHaveNo(hstr, ':');
    BeforeFirstAt(hstr, ':', ms);
    assert s[|hstr| + 1..] == ms;
  }
}

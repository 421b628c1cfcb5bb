/**
 * The SRT timecode codec: `HH:MM:SS,mmm` text against a time in whole
 * milliseconds, and the `start --> end` line pattern the parsers look for.
 */
module Timecode {
  import opened Wrappers
  import opened Text
  import opened Seqs

  /** Times of this many milliseconds or more need a third hour digit. */
  const TwoDigitHourLimit: nat := 100 * 3600000

  function Pow10(k: nat): (p: nat)
    ensures p >= 1
  {
    if k == 0 then 1 else 10 * Pow10(k - 1)
  }

  /** A decimal rendering has at most `k` digits exactly when the number is below `10^k`. */
  lemma {:induction false} NatToStringLength(n: nat, k: nat)
    requires k >= 1
    ensures |NatToString(n)| <= k <==> n < Pow10(k)
    decreases n
  {
    if n >= 10 {
      var p := Pow10(k - 1);
      assert n / 10 < p <==> n < 10 * p;
      if k > 1 {
        NatToStringLength(n / 10, k - 1);
      } else {
        assert |NatToString(n)| == |NatToString(n / 10)| + 1;
      }
    } else if k > 1 {
      assert Pow10(k) == 10 * Pow10(k - 1);
    }
  }

  function Zeros(k: nat): (r: string)
    ensures |r| == k && AllDigits(r) && DigitsValue(r) == 0
  {
    if k == 0 then "" else
      var r := Zeros(k - 1) + "0";
      assert r[..k - 1] == Zeros(k - 1);
      r
  }

  /** Leading zeros do not change the value of a digit string. */
  lemma {:induction false} LeadingZeros(z: string, d: string)
    requires AllDigits(z) && DigitsValue(z) == 0 && AllDigits(d)
    ensures AllDigits(z + d) && DigitsValue(z + d) == DigitsValue(d)
    decreases |d|
  {
    if |d| > 0 {
      var d' := d[..|d| - 1];
      LeadingZeros(z, d');
      assert (z + d)[..|z + d| - 1] == z + d';
    } else {
      assert z + d == z;
    }
  }

  /** Python's `f"{n:0w}"`: decimal, zero-padded to at least `width` digits. */
  function Pad(n: nat, width: nat): (r: string)
    requires width >= 1
    ensures AllDigits(r) && DigitsValue(r) == n
    ensures n < Pow10(width) ==> |r| == width
    ensures n >= Pow10(width) ==> |r| > width
  {
    var d := NatToString(n);
    NatToStringLength(n, width);
    if |d| >= width then d
    else
      LeadingZeros(Zeros(width - |d|), d);
      Zeros(width - |d|) + d
  }

  /** The regex `\d{2}:\d{2}:\d{2}[,.]\d{3}` matches at position `i` of `s`. */
  predicate TimestampAt(s: string, i: nat)
  {
    i + 12 <= |s|
    && IsDigit(s[i]) && IsDigit(s[i + 1]) && s[i + 2] == ':'
    && IsDigit(s[i + 3]) && IsDigit(s[i + 4]) && s[i + 5] == ':'
    && IsDigit(s[i + 6]) && IsDigit(s[i + 7]) && (s[i + 8] == ',' || s[i + 8] == '.')
    && IsDigit(s[i + 9]) && IsDigit(s[i + 10]) && IsDigit(s[i + 11])
  }

  /** The time denoted by the timestamp at the start of `s`. */
  function TimestampValue(s: string): nat
    requires TimestampAt(s, 0)
  {
    var h := DigitsValue(s[0..2]);
    var m := DigitsValue(s[3..5]);
    var sec := DigitsValue(s[6..8]);
    var ms := DigitsValue(s[9..12]);
    ((h * 60 + m) * 60 + sec) * 1000 + ms
  }

  /**
   * `parse_srt_time`: `h*3600 + m*60 + s + ms/1000` seconds when a timestamp
   * starts the string (anything may follow it), and 0 otherwise.
   */
  function ParseTime(s: string): (ms: nat)
    ensures !TimestampAt(s, 0) ==> ms == 0
  {
    if TimestampAt(s, 0) then TimestampValue(s) else 0
  }

  /** The four fields of a timestamp laid out as `hh:mm:ss,mmm`. */
  function Layout(h: nat, m: nat, sec: nat, f: nat): string
  {
    Pad(h, 2) + ":" + Pad(m, 2) + ":" + Pad(sec, 2) + "," + Pad(f, 3)
  }

  lemma LayoutShape(h: nat, m: nat, sec: nat, f: nat)
    requires m < 60 && sec < 60 && f < 1000
    ensures var r := Layout(h, m, sec, f);
      && (h < 100 ==> |r| == 12 && TimestampAt(r, 0) && r[8] == ','
                      && r[0..2] == Pad(h, 2) && r[3..5] == Pad(m, 2)
                      && r[6..8] == Pad(sec, 2) && r[9..12] == Pad(f, 3))
      && (h >= 100 ==> |r| > 12 && !TimestampAt(r, 0))
  {
    var hh, mm, ss, ff := Pad(h, 2), Pad(m, 2), Pad(sec, 2), Pad(f, 3);
    PadWidths(h, m, sec, f);
    if h < 100 {
      ShortLayout(hh, mm, ss, ff);
    } else {
      LongLayout(hh, mm, ss, ff);
    }
  }

  lemma PadWidths(h: nat, m: nat, sec: nat, f: nat)
    requires m < 60 && sec < 60 && f < 1000
    ensures |Pad(m, 2)| == 2 && |Pad(sec, 2)| == 2 && |Pad(f, 3)| == 3
    ensures h < 100 ==> |Pad(h, 2)| == 2
    ensures h >= 100 ==> |Pad(h, 2)| > 2
  {
    assert Pow10(2) == 100 && Pow10(3) == 1000 by {
      assert Pow10(1) == 10;
    }
  }

  /** With a third hour digit the third character is no colon. */
  lemma LongLayout(hh: string, mm: string, ss: string, ff: string)
    requires |hh| > 2 && AllDigits(hh) && |mm| == 2 && |ss| == 2 && |ff| == 3
    ensures var r := hh + ":" + mm + ":" + ss + "," + ff;
      |r| > 12 && !TimestampAt(r, 0)
  {
    var r := hh + ":" + mm + ":" + ss + "," + ff;
    assert r == hh + (":" + mm + ":" + ss + "," + ff);
    assert r[2] == hh[2];
  }

  /** Four digit strings of widths 2, 2, 2 and 3 joined by `:`, `:` and `,` form a timestamp. */
  lemma ShortLayout(hh: string, mm: string, ss: string, ff: string)
    requires |hh| == 2 && |mm| == 2 && |ss| == 2 && |ff| == 3
    requires AllDigits(hh) && AllDigits(mm) && AllDigits(ss) && AllDigits(ff)
    ensures var r := hh + ":" + mm + ":" + ss + "," + ff;
      |r| == 12 && TimestampAt(r, 0) && r[8] == ','
      && r[0..2] == hh && r[3..5] == mm && r[6..8] == ss && r[9..12] == ff
  {
    var r := hh + ":" + mm + ":" + ss + "," + ff;
    assert r == [hh[0], hh[1], ':', mm[0], mm[1], ':', ss[0], ss[1], ',', ff[0], ff[1], ff[2]];
  }

  /**
   * `format_srt_time` on a time in milliseconds: hours, minutes and seconds
   * padded to two digits, milliseconds to three, comma before the milliseconds.
   */
  function FormatTime(ms: nat): (r: string)
    ensures ms < TwoDigitHourLimit ==> |r| == 12 && TimestampAt(r, 0) && r[8] == ','
    ensures ms >= TwoDigitHourLimit ==> |r| > 12 && !TimestampAt(r, 0)
  {
    var secs := ms / 1000;
    var mins := secs / 60;
    LayoutShape(mins / 60, mins % 60, secs % 60, ms % 1000);
    Layout(mins / 60, mins % 60, secs % 60, ms % 1000)
  }

  /** Parsing a formatted time gives the time back exactly when its hours fit two digits. */
  lemma RoundTrip(ms: nat)
    ensures ParseTime(FormatTime(ms)) == ms <==> ms < TwoDigitHourLimit
  {
    var r := FormatTime(ms);
    if ms < TwoDigitHourLimit {
      var secs := ms / 1000;
      var mins := secs / 60;
      LayoutShape(mins / 60, mins % 60, secs % 60, ms % 1000);
      assert TimestampValue(r) == ((mins / 60 * 60 + mins % 60) * 60 + secs % 60) * 1000 + ms % 1000;
    }
  }

  /** The index of the first non-whitespace character at or after `i`. */
  function SkipSpaces(s: string, i: nat): (j: nat)
    requires i <= |s|
    ensures i <= j <= |s|
    decreases |s| - i
  {
    if i < |s| && IsSpace(s[i]) then SkipSpaces(s, i + 1) else i
  }

  /** `\s*` consumes every whitespace character from `i` on and stops at the first other one. */
  lemma {:induction false} SkipSpacesStops(s: string, i: nat)
    requires i <= |s|
    ensures var j := SkipSpaces(s, i);
      && (forall k :: i <= k < j ==> IsSpace(s[k]))
      && (j == |s| || !IsSpace(s[j]))
    decreases |s| - i
  {
    if i < |s| && IsSpace(s[i]) {
      SkipSpacesStops(s, i + 1);
    }
  }

  /**
   * The regex `(TS)\s*-->\s*(TS)` matched at position `i`, TS being the
   * timestamp pattern: the two captured timestamps, or None.
   */
  function TimeRangeAt(s: string, i: nat): (r: Option<(string, string)>)
    ensures r.Some? ==> TimestampAt(r.value.0, 0) && TimestampAt(r.value.1, 0)
    ensures r.Some? ==> TimestampAt(s, i) && |r.value.0| == 12 && |r.value.1| == 12 && r.value.0 == s[i..i + 12]
  {
    if !TimestampAt(s, i) then None
    else
      var j := SkipSpaces(s, i + 12);
      if j + 3 <= |s| && s[j..j + 3] == "-->" then
        var k := SkipSpaces(s, j + 3);
        if TimestampAt(s, k) then Some((s[i..i + 12], s[k..k + 12])) else None
      else None
  }

  /** `re.search` of the time-range pattern: the leftmost match at or after `i`. */
  function SearchTimeRange(s: string, i: nat): Option<(string, string)>
  {
    FirstSome(k => TimeRangeAt(s, k), |s|, i)
  }

  /** The first position at or after `i` where the range pattern matches, or the end of the line. */
  function MatchPosition(s: string, i: nat): nat
  {
    FirstSomeAt(k => TimeRangeAt(s, k), |s|, i)
  }

  /**
   * What the search returns is what the pattern gives at the leftmost
   * position at or after `i` where it matches, the pattern matching at no
   * position in between.
   */
  lemma SearchFindsLeftmost(s: string, i: nat)
    requires i <= |s|
    ensures var k := MatchPosition(s, i);
      && i <= k <= |s| && TimeRangeAt(s, k) == SearchTimeRange(s, i) && (k < |s| ==> TimeRangeAt(s, k).Some?)
      && forall j :: i <= j < k ==> TimeRangeAt(s, j).None?
  {
    var f := k => TimeRangeAt(s, k);
    FirstSomeLeftmost(f, |s|, i);
    var k := MatchPosition(s, i);
    forall j | i <= j < k
      ensures TimeRangeAt(s, j).None?
    {
      assert f(j).None?;
    }
  }

  /** The search finds a match exactly when one exists at or after `i`. */
  lemma SearchFindsMatch(s: string, i: nat)
    requires i <= |s|
    ensures SearchTimeRange(s, i).Some? <==> exists k :: i <= k <= |s| && TimeRangeAt(s, k).Some?
  {
    SearchFindsLeftmost(s, i);
    var k := MatchPosition(s, i);
    if SearchTimeRange(s, i).None? {
      forall j | i <= j <= |s|
        ensures TimeRangeAt(s, j).None?
      {
        if j < k {
          assert TimeRangeAt(s, j).None?;
        } else {
          assert j == k;
        }
      }
    }
  }

  /** The range line the writers emit: `start --> end`. */
  function TimeLine(a: nat, b: nat): string
  {
    FormatTime(a) + " --> " + FormatTime(b)
  }

  /** A formatted range line matches the range pattern at its start, capturing the two timestamps. */
  lemma RangeLineMatches(a: nat, b: nat)
    requires a < TwoDigitHourLimit && b < TwoDigitHourLimit
    ensures TimeRangeAt(TimeLine(a, b), 0) == Some((FormatTime(a), FormatTime(b)))
  {
    RangeLine(FormatTime(a), FormatTime(b));
  }

  lemma RangeLine(fa: string, fb: string)
    requires |fa| == 12 && |fb| == 12 && TimestampAt(fa, 0) && TimestampAt(fb, 0)
    ensures TimeRangeAt(fa + " --> " + fb, 0) == Some((fa, fb))
  {
    var s := fa + " --> " + fb;
    assert |s| == 29;
    assert s[..12] == fa;
    assert s[12] == ' ' && s[13] == '-' && s[14] == '-' && s[15] == '>' && s[16] == ' ';
    assert SkipSpaces(s, 13) == 13;
    assert SkipSpaces(s, 12) == 13;
    assert s[13..16] == "-->";
    assert s[17..29] == fb;
    assert TimestampAt(s, 0) by {
      forall k | 0 <= k < 12 ensures s[k] == fa[k] { }
    }
    assert TimestampAt(s, 17) by {
      forall k | 0 <= k < 12 ensures s[17 + k] == fb[k] { }
    }
    assert SkipSpaces(s, 17) == 17;
    assert SkipSpaces(s, 16) == 17;
  }
}

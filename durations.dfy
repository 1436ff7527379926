/** The duration helpers of `FlightSearchAPI`: `parseDuration` reads the
    `PT[<h>H][<m>M]` prefix of an ISO 8601 duration (section 4.4.3.2 of
    ISO 8601) into total minutes, and `formatDuration` renders minutes as
    "<H>h <M>m". */
module Durations {
  import opened Wrappers
  import opened Decimal

  predicate IsPTAt(s: string, j: int) {
    0 <= j && j + 1 < |s| && s[j] == 'P' && s[j + 1] == 'T'
  }

  /** Whether the two letters "PT" occur somewhere in `s`. */
  predicate ContainsPT(s: string) {
    exists j :: 0 <= j < |s| && IsPTAt(s, j)
  }

  /** The first index at or after `from` where "PT" starts: the position at
      which the unanchored regular expression matches. */
  function FindPT(s: string, from: nat): (r: Option<nat>)
    requires from <= |s|
    ensures r.Some? ==> from <= r.value && IsPTAt(s, r.value)
    decreases |s| - from
  {
    if from + 1 >= |s| then None
    else if IsPTAt(s, from) then Some(from)
    else FindPT(s, from + 1)
  }

  /** The optional group `(\d+<unit>)?` tried at index `i`: the number it
      holds and the index after it, or 0 and `i` when the group is absent.
      Backtracking inside `\d+` never helps, since a shorter run of digits
      is followed by a digit and not by the unit letter. */
  function Group(s: string, i: nat, unit: char): (g: (nat, nat))
    requires i <= |s|
    ensures i <= g.1 <= |s|
  {
    var k := DigitRun(s, i);
    if 0 < k && i + k < |s| && s[i + k] == unit then (ValueOf(s, i, i + k), i + k + 1)
    else (0, i)
  }

  /** `parseDuration`: total minutes of the first `PT[<h>H][<m>M]` match;
      None where the source throws because nothing matched. */
  function ParseDuration(duration: string): (r: Option<nat>) {
    match FindPT(duration, 0)
    case None => None
    case Some(j) =>
      var (hours, next) := Group(duration, j + 2, 'H');
      var (minutes, _) := Group(duration, next, 'M');
      Some(hours * 60 + minutes)
  }

  /** The vendor's rendering of h hours and m minutes, "PT<h>H<m>M". */
  function IsoDuration(h: nat, m: nat): (r: string) {
    "PT" + Show(h) + "H" + Show(m) + "M"
  }

  /** The display form "<h>h <m>m". */
  function Display(h: nat, m: nat): (r: string) {
    Show(h) + "h " + Show(m) + "m"
  }

  /** `formatDuration`: whole hours, then the remaining minutes. */
  function FormatDuration(minutes: nat): (r: string) {
    Display(minutes / 60, minutes % 60)
  }

  /** Reads a display string "<H>h <M>m" (with M below 60) back into
      minutes: the inverse that `FormatDuration` is measured against. */
  function ReadDuration(s: string): (r: Option<nat>) {
    var k := DigitRun(s, 0);
    if 0 < k && k + 1 < |s| && s[k] == 'h' && s[k + 1] == ' ' then
      var j := DigitRun(s, k + 2);
      if 0 < j && k + j + 3 == |s| && s[k + 2 + j] == 'm' && ValueOf(s, k + 2, k + 2 + j) < 60 then
        Some(ValueOf(s, 0, k) * 60 + ValueOf(s, k + 2, k + 2 + j))
      else None
    else None
  }

  // ---------------------------------------------------------------------
  // Where the match starts, and when there is none

  /** `FindPT` finds the first occurrence at or after `from`, and None only
      when there is none. */
  lemma {:induction false} FindPTFirst(s: string, from: nat)
    requires from <= |s|
    ensures FindPT(s, from).Some? ==> forall j :: from <= j < FindPT(s, from).value ==> !IsPTAt(s, j)
    ensures FindPT(s, from).None? ==> forall j :: from <= j ==> !IsPTAt(s, j)
    decreases |s| - from
  {
    if from + 1 < |s| && !IsPTAt(s, from) {
      FindPTFirst(s, from + 1);
    }
  }

  /** The source throws exactly when the duration holds no "PT". */
  lemma ParseFailsIffNoPT(duration: string)
    ensures ParseDuration(duration).None? <==> !ContainsPT(duration)
  {
    FindPTFirst(duration, 0);
    if FindPT(duration, 0).Some? {
      assert IsPTAt(duration, FindPT(duration, 0).value);
    }
  }

  /** On a string that starts with "PT" the match is at index 0. */
  lemma ParseAtStart(s: string)
    requires |s| >= 2 && s[0] == 'P' && s[1] == 'T'
    ensures ParseDuration(s)
         == Some(Group(s, 2, 'H').0 * 60 + Group(s, Group(s, 2, 'H').1, 'M').0)
  {
    assert IsPTAt(s, 0);
  }

  /** With no "PT" between `from` and `n`, the search stops at the "PT" at
      `n`. */
  lemma {:induction false} FindPTSkip(s: string, from: nat, n: nat)
    requires from <= n && IsPTAt(s, n)
    requires forall j :: from <= j < n ==> !IsPTAt(s, j)
    ensures FindPT(s, from) == Some(n)
    decreases n - from
  {
    if from < n {
      FindPTSkip(s, from + 1, n);
    }
  }

  /** A group read behind a prefix `p` is the group read without it, moved
      by `|p|`. */
  lemma GroupShift(p: string, s: string, i: nat, unit: char)
    requires i <= |s|
    ensures Group(p + s, |p| + i, unit) == (Group(s, i, unit).0, |p| + Group(s, i, unit).1)
  {
    var t := p + s;
    DigitRunShift(p, s, i);
    var k := DigitRun(s, i);
    if i + k < |s| {
      assert t[|p| + i + k] == s[i + k];
    }
    forall x | |p| + i <= x < |p| + i + k
      ensures t[x] == s[i + x - (|p| + i)]
    {
    }
    ValueOfShift(t, |p| + i, |p| + i + k, s, i);
  }

  /** The match starts at the first "PT", wherever it is: text before it
      that holds no "PT" is skipped. */
  lemma ParseSkipsPrefix(p: string, s: string)
    requires !ContainsPT(p) && |s| >= 2 && s[0] == 'P' && s[1] == 'T'
    ensures ParseDuration(p + s) == ParseDuration(s)
  {
    var t := p + s;
    assert t[|p|] == 'P' && t[|p| + 1] == 'T';
    forall j | 0 <= j < |p|
      ensures !IsPTAt(t, j)
    {
      if j + 1 < |p| {
        assert !IsPTAt(p, j);
        assert t[j] == p[j] && t[j + 1] == p[j + 1];
      } else {
        assert t[j + 1] == s[0];
      }
    }
    FindPTSkip(t, 0, |p|);
    assert IsPTAt(s, 0);
    var (hours, next) := Group(s, 2, 'H');
    GroupShift(p, s, 2, 'H');
    GroupShift(p, s, next, 'M');
  }

  // ---------------------------------------------------------------------
  // Groups

  /** A non-empty run of digits `d` sits at index `i` and is followed by
      `c`. */
  predicate DigitsAt(s: string, i: nat, d: string, c: char) {
    d != [] && AllDigits(d) && i + |d| < |s| && s[i..i + |d|] == d && s[i + |d|] == c
  }

  /** A run of digits `d` at `i` that is followed by a non-digit is what
      `DigitRun` finds there, and `ValueOf` reads it as `Value(d)`. */
  lemma RunAndValue(s: string, i: nat, d: string, c: char)
    requires DigitsAt(s, i, d, c) && !IsDigit(c)
    ensures DigitRun(s, i) == |d| && ValueOf(s, i, i + |d|) == Value(d)
  {
    assert forall j :: i <= j < i + |d| ==> s[j] == d[j - i];
    DigitRunAt(s, i, |d|);
    ValueOfShift(s, i, i + |d|, d, 0);
  }

  /** A run of digits `d` at `i`, followed by the unit letter, is read as
      the number `d` denotes. */
  lemma GroupPresent(s: string, i: nat, d: string, unit: char)
    requires DigitsAt(s, i, d, unit) && !IsDigit(unit)
    ensures Group(s, i, unit) == (Value(d), i + |d| + 1)
  {
    RunAndValue(s, i, d, unit);
  }

  /** A run of digits at `i` followed by a different letter is not the
      group. */
  lemma GroupOtherUnit(s: string, i: nat, d: string, other: char, unit: char)
    requires DigitsAt(s, i, d, other) && !IsDigit(other) && other != unit
    ensures Group(s, i, unit) == (0, i)
  {
    RunAndValue(s, i, d, other);
  }

  /** No digit at `i`: the group is absent. */
  lemma GroupNoDigits(s: string, i: nat, unit: char)
    requires i <= |s|
    requires i == |s| || !IsDigit(s[i])
    ensures Group(s, i, unit) == (0, i)
  {
    DigitRunAt(s, i, 0);
  }

  /** Digits that run to the end of the text have no unit letter after
      them: the group is absent. */
  lemma GroupAtEnd(s: string, i: nat, unit: char)
    requires i < |s| && AllDigits(s[i..])
    ensures Group(s, i, unit) == (0, i)
  {
    forall j | i <= j < |s|
      ensures IsDigit(s[j])
    {
      assert s[i..][j - i] == s[j];
    }
    DigitRunAt(s, i, |s| - i);
  }

  /** Where a run of digits sits inside a concatenation. */
  lemma DigitsAtConcat(p: string, d: string, c: char, rest: string)
    requires d != [] && AllDigits(d)
    ensures DigitsAt(p + d + [c] + rest, |p|, d, c)
  {
    var s := p + d + [c] + rest;
    assert s[|p|..|p| + |d|] == d;
  }

  /** A prefix carries its runs of digits into the whole string. */
  lemma DigitsAtPrefix(p: string, s: string, i: nat, d: string, c: char)
    requires DigitsAt(p, i, d, c) && p <= s
    ensures DigitsAt(s, i, d, c)
  {
    assert s[i..i + |d|] == p[i..i + |d|];
    assert s[i + |d|] == p[i + |d|];
  }

  /** Where the two groups sit in "PT<hd>H<md>M". */
  lemma HoursMinutesLayout(hd: string, md: string)
    requires hd != [] && AllDigits(hd) && md != [] && AllDigits(md)
    ensures DigitsAt("PT" + hd + "H" + md + "M", 2, hd, 'H')
    ensures DigitsAt("PT" + hd + "H" + md + "M", 3 + |hd|, md, 'M')
  {
    var p := "PT" + hd + "H";
    DigitsAtConcat("PT", hd, 'H', []);
    assert "PT" + hd + ['H'] + [] == p;
    DigitsAtPrefix(p, p + md + "M", 2, hd, 'H');
    DigitsAtConcat(p, md, 'M', []);
    assert p + md + ['M'] + [] == p + md + "M";
  }

  // ---------------------------------------------------------------------
  // What `parseDuration` returns

  lemma ParseHoursMinutesAt(s: string, hd: string, md: string)
    requires |s| >= 2 && s[0] == 'P' && s[1] == 'T'
    requires DigitsAt(s, 2, hd, 'H') && DigitsAt(s, 3 + |hd|, md, 'M')
    ensures ParseDuration(s) == Some(Value(hd) * 60 + Value(md))
  {
    ParseAtStart(s);
    GroupPresent(s, 2, hd, 'H');
    GroupPresent(s, 3 + |hd|, md, 'M');
  }

  lemma ParseHoursOnlyAt(s: string, hd: string)
    requires |s| >= 2 && s[0] == 'P' && s[1] == 'T'
    requires DigitsAt(s, 2, hd, 'H')
    requires 3 + |hd| == |s| || !IsDigit(s[3 + |hd|])
    ensures ParseDuration(s) == Some(Value(hd) * 60)
  {
    ParseAtStart(s);
    GroupPresent(s, 2, hd, 'H');
    GroupNoDigits(s, 3 + |hd|, 'M');
  }

  lemma ParseMinutesOnlyAt(s: string, md: string)
    requires |s| >= 2 && s[0] == 'P' && s[1] == 'T'
    requires DigitsAt(s, 2, md, 'M')
    ensures ParseDuration(s) == Some(Value(md))
  {
    ParseAtStart(s);
    GroupOtherUnit(s, 2, md, 'M', 'H');
    GroupPresent(s, 2, md, 'M');
  }

  /** A duration that begins "PT<h>H<m>M" is h*60 + m minutes, whatever
      follows (a seconds part, say). */
  lemma ParseHoursMinutes(s: string, h: nat, m: nat)
    requires IsoDuration(h, m) <= s
    ensures ParseDuration(s) == Some(h * 60 + m)
  {
    var p := IsoDuration(h, m);
    HoursMinutesLayout(Show(h), Show(m));
    DigitsAtPrefix(p, s, 2, Show(h), 'H');
    DigitsAtPrefix(p, s, 3 + |Show(h)|, Show(m), 'M');
    assert s[0] == p[0] && s[1] == p[1];
    ParseHoursMinutesAt(s, Show(h), Show(m));
    ValueOfShow(h);
    ValueOfShow(m);
  }

  /** A duration that begins "PT<h>H" and has no digit next is h*60. */
  lemma ParseHoursOnly(s: string, h: nat)
    requires "PT" + Show(h) + "H" <= s
    requires |s| == 3 + |Show(h)| || !IsDigit(s[3 + |Show(h)|])
    ensures ParseDuration(s) == Some(h * 60)
  {
    var p := "PT" + Show(h) + "H";
    DigitsAtConcat("PT", Show(h), 'H', []);
    assert "PT" + Show(h) + ['H'] + [] == p;
    DigitsAtPrefix(p, s, 2, Show(h), 'H');
    assert s[0] == p[0] && s[1] == p[1];
    ParseHoursOnlyAt(s, Show(h));
    ValueOfShow(h);
  }

  /** "PT<h>H" followed by digits with no unit letter is h hours: the
      trailing digits match no group. */
  lemma ParseHoursTrailingDigits(s: string, h: nat)
    requires "PT" + Show(h) + "H" <= s && 3 + |Show(h)| < |s|
    requires AllDigits(s[3 + |Show(h)|..])
    ensures ParseDuration(s) == Some(h * 60)
  {
    var p := "PT" + Show(h) + "H";
    DigitsAtConcat("PT", Show(h), 'H', []);
    assert "PT" + Show(h) + ['H'] + [] == p;
    DigitsAtPrefix(p, s, 2, Show(h), 'H');
    assert s[0] == p[0] && s[1] == p[1];
    ParseAtStart(s);
    GroupPresent(s, 2, Show(h), 'H');
    GroupAtEnd(s, 3 + |Show(h)|, 'M');
    ValueOfShow(h);
  }

  /** "PT" followed only by digits is 0: neither group matches. */
  lemma ParseBareDigits(s: string)
    requires |s| > 2 && s[0] == 'P' && s[1] == 'T' && AllDigits(s[2..])
    ensures ParseDuration(s) == Some(0)
  {
    ParseAtStart(s);
    GroupAtEnd(s, 2, 'H');
    GroupAtEnd(s, 2, 'M');
  }

  /** A duration that begins "PT<m>M" is m: no hours group. */
  lemma ParseMinutesOnly(s: string, m: nat)
    requires "PT" + Show(m) + "M" <= s
    ensures ParseDuration(s) == Some(m)
  {
    var p := "PT" + Show(m) + "M";
    DigitsAtConcat("PT", Show(m), 'M', []);
    assert "PT" + Show(m) + ['M'] + [] == p;
    DigitsAtPrefix(p, s, 2, Show(m), 'M');
    assert s[0] == p[0] && s[1] == p[1];
    ParseMinutesOnlyAt(s, Show(m));
    ValueOfShow(m);
  }

  /** "PT" with neither group is zero minutes. */
  lemma ParseNoGroups(rest: string)
    requires rest == [] || !IsDigit(rest[0])
    ensures ParseDuration("PT" + rest) == Some(0)
  {
    var s := "PT" + rest;
    assert 2 < |s| ==> s[2] == rest[0];
    ParseAtStart(s);
    GroupNoDigits(s, 2, 'H');
  }

  // ---------------------------------------------------------------------
  // What `formatDuration` returns

  /** Formatting h hours and m < 60 minutes shows exactly h and m. */
  lemma FormatHoursMinutes(h: nat, m: nat)
    requires m < 60
    ensures FormatDuration(h * 60 + m) == Display(h, m)
  {
    var n := h * 60 + m;
    assert n / 60 == h && n % 60 == m;
  }

  /** Where the two numbers sit in "<hd>h <md>m". */
  lemma DisplayLayout(hd: string, md: string)
    requires hd != [] && AllDigits(hd) && md != [] && AllDigits(md)
    ensures var s := hd + "h " + md + "m";
      && |s| == |hd| + |md| + 3
      && DigitsAt(s, 0, hd, 'h') && s[|hd| + 1] == ' '
      && DigitsAt(s, |hd| + 2, md, 'm')
  {
    var s := hd + "h " + md + "m";
    assert s[..|hd|] == hd;
    assert s[|hd| + 2..|hd| + 2 + |md|] == md;
  }

  lemma ReadDisplayAt(s: string, hd: string, md: string)
    requires |s| == |hd| + |md| + 3
    requires DigitsAt(s, 0, hd, 'h') && s[|hd| + 1] == ' ' && DigitsAt(s, |hd| + 2, md, 'm')
    requires Value(md) < 60
    ensures ReadDuration(s) == Some(Value(hd) * 60 + Value(md))
  {
    RunAndValue(s, 0, hd, 'h');
    RunAndValue(s, |hd| + 2, md, 'm');
  }

  /** Reading back a formatted duration recovers the minutes; in particular
      the minutes field is always below 60. */
  lemma ReadFormatted(n: nat)
    ensures ReadDuration(FormatDuration(n)) == Some(n)
  {
    var h, m := n / 60, n % 60;
    DisplayLayout(Show(h), Show(m));
    ValueOfShow(h);
    ValueOfShow(m);
    ReadDisplayAt(Display(h, m), Show(h), Show(m));
  }

  /** Different minute counts are displayed differently. */
  lemma FormatInjective(a: nat, b: nat)
    requires FormatDuration(a) == FormatDuration(b)
    ensures a == b
  {
    ReadFormatted(a);
    ReadFormatted(b);
  }

  /** The round trip from the vendor's string to the display string. */
  lemma ParseThenFormat(duration: string, h: nat, m: nat)
    requires IsoDuration(h, m) <= duration && m < 60
    ensures FormatDuration(ParseDuration(duration).value) == Display(h, m)
  {
    ParseHoursMinutes(duration, h, m);
    FormatHoursMinutes(h, m);
  }

  /** An outbound leg of "PT2H30M" and a return leg of "PT1H15M" show as
      "3h 45m". */
  lemma SumOfTwoLegs(outbound: string, inbound: string)
    requires "PT2H30M" <= outbound && "PT1H15M" <= inbound
    ensures FormatDuration(ParseDuration(outbound).value + ParseDuration(inbound).value) == "3h 45m"
  {
    IsoDurationExamples();
    ParseHoursMinutes(outbound, 2, 30);
    ParseHoursMinutes(inbound, 1, 15);
    FormatExample();
  }

  /** 225 minutes display as "3h 45m". */
  lemma FormatExample()
    ensures FormatDuration(225) == "3h 45m"
  {
    FormatHoursMinutes(3, 45);
    assert Show(3) == "3" && Show(45) == "45";
  }

  /** The vendor's strings for those two legs. */
  lemma IsoDurationExamples()
    ensures IsoDuration(2, 30) == "PT2H30M" && IsoDuration(1, 15) == "PT1H15M"
  {}

  /** A string without "PT" fails. */
  lemma ExampleNoMatch()
    ensures ParseDuration("2H30M") == None
  {}
}

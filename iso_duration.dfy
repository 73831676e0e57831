/** The YouTube proxy's `isoDurationToSeconds`: the time part of an ISO 8601 duration
    (section 4.4.3.2 of ISO 8601:2004, e.g. `PT1H2M3S`) read with the unanchored pattern
    `PT(?:(\d+)H)?(?:(\d+)M)?(?:(\d+)S)?`, written out as a scanner over the string. */
module IsoDuration {
  import opened JsValues
  import opened Strings
  import opened Decimal

  /** The three capture groups; `None` where a group did not take part in the match. */
  datatype Groups = Groups(hours: Option<string>, minutes: Option<string>, seconds: Option<string>)

  /** A match of the pattern: where it starts, where it ends, and its groups. */
  datatype Match = Match(index: nat, end: nat, groups: Groups)

  /** A captured group is absent or a non-empty run of ASCII digits. */
  predicate DigitGroup(g: Option<string>)
  {
    g.Some? ==> |g.value| > 0 && AllDigits(g.value)
  }

  /** The length of the longest run of digits in `s` starting at `i`. */
  function DigitRun(s: string, i: nat): (n: nat)
    requires i <= |s|
    ensures i + n <= |s|
    ensures forall k :: i <= k < i + n ==> IsDigit(s[k])
    ensures i + n == |s| || !IsDigit(s[i + n])
    decreases |s| - i
  {
    if i < |s| && IsDigit(s[i]) then 1 + DigitRun(s, i + 1) else 0
  }

  /** A run of digits that ends at the end of `s` or before a non-digit is the longest one. */
  lemma DigitRunIs(s: string, i: nat, k: nat)
    requires i + k <= |s|
    requires forall j :: i <= j < i + k ==> IsDigit(s[j])
    requires i + k == |s| || !IsDigit(s[i + k])
    ensures DigitRun(s, i) == k
  {
  }

  /** `(\d+)unit` can match at `i` with exactly `m` digits. */
  predicate GroupCanMatch(s: string, i: nat, unit: char, m: nat)
  {
    1 <= m && i + m < |s| && (forall j :: i <= j < i + m ==> IsDigit(s[j])) && s[i + m] == unit
  }

  /** The optional group `(?:(\d+)unit)?` tried at `i`: the captured digits and the position
      after the unit, or no capture and the position unchanged. */
  function OptionalGroup(s: string, i: nat, unit: char): (r: (Option<string>, nat))
    requires i <= |s|
    ensures i <= r.1 <= |s| && DigitGroup(r.0)
    ensures r.0.None? ==> r.1 == i
  {
    var n := DigitRun(s, i);
    if n > 0 && i + n < |s| && s[i + n] == unit then (Some(s[i..i + n]), i + n + 1) else (None, i)
  }

  /** The scanner is the regular expression: the group takes part exactly when `(\d+)unit` can
      match at `i`, and then it takes the one way it can match. Backtracking into a shorter
      digit run never succeeds, since the character after it is a digit and not the unit. */
  lemma OptionalGroupIsTheMatch(s: string, i: nat, unit: char)
    requires i <= |s| && !IsDigit(unit)
    ensures OptionalGroup(s, i, unit).0.Some? <==> exists m :: GroupCanMatch(s, i, unit, m)
    ensures forall m :: GroupCanMatch(s, i, unit, m) ==>
              OptionalGroup(s, i, unit) == (Some(s[i..i + m]), i + m + 1)
  {
    var n := DigitRun(s, i);
    if n > 0 && i + n < |s| && s[i + n] == unit {
      assert GroupCanMatch(s, i, unit, n);
    }
  }

  /** The pattern matched at an occurrence of `PT`: the three optional groups in H, M, S order. */
  function MatchAt(s: string, i: nat): (m: Match)
    requires OccursAt(s, "PT", i)
    ensures m.index == i && i + 2 <= m.end <= |s|
    ensures DigitGroup(m.groups.hours) && DigitGroup(m.groups.minutes) && DigitGroup(m.groups.seconds)
  {
    var h := OptionalGroup(s, i + 2, 'H');
    var mi := OptionalGroup(s, h.1, 'M');
    var sec := OptionalGroup(s, mi.1, 'S');
    Match(i, sec.1, Groups(h.0, mi.0, sec.0))
  }

  /** `isoDuration.match(pattern)`: every group is optional, so the pattern matches wherever
      `PT` occurs, and the leftmost occurrence wins. */
  function FirstMatch(s: string): (r: Option<Match>)
    ensures r.None? <==> !Contains(s, "PT")
    ensures r.Some? ==> OccursAt(s, "PT", r.value.index)
    ensures r.Some? ==> forall j :: 0 <= j < r.value.index ==> !OccursAt(s, "PT", j)
  {
    match IndexOf(s, "PT")
    case None => None
    case Some(i) => Some(MatchAt(s, i))
  }

  /** `match[k] ? parseInt(match[k], 10) : 0`. */
  function GroupNumber(g: Option<string>): nat
    requires DigitGroup(g)
  {
    if g.Some? && g.value != "" then DigitsValue(g.value) else 0
  }

  /** Seconds denoted by the time part of an ISO 8601 duration; 0 when there is no `PT`. */
  function IsoDurationToSeconds(iso: string): (r: nat)
    ensures !Contains(iso, "PT") ==> r == 0
  {
    match FirstMatch(iso)
    case None => 0
    case Some(m) =>
      GroupNumber(m.groups.hours) * 3600 + GroupNumber(m.groups.minutes) * 60
        + GroupNumber(m.groups.seconds)
  }

  // ---------------------------------------------------------------------------------------
  // The partner: writing a duration as ISO 8601 text, which the parser reads back.

  /** The decimal digits written for a component, or nothing when it is left out. */
  function Capture(v: Option<nat>): (d: Option<string>)
    ensures DigitGroup(d)
    ensures d.None? <==> v.None?
  {
    if v.Some? then Some(NatToString(v.value)) else None
  }

  /** One component `<digits><unit>`, or the empty string. */
  function Component(d: Option<string>, unit: char): string
  {
    if d.Some? then d.value + [unit] else ""
  }

  /** The ISO 8601 time part `PT[<h>H][<m>M][<s>S]`, a left-out component omitted. */
  function FormatDuration(h: Option<nat>, m: Option<nat>, sec: Option<nat>): string
  {
    "PT" + Component(Capture(h), 'H') + Component(Capture(m), 'M') + Component(Capture(sec), 'S')
  }

  /** A left-out component counts as zero. */
  function Amount(v: Option<nat>): nat
  {
    if v.Some? then v.value else 0
  }

  /** The group for `unit` does not match at `i`. */
  predicate NoGroupAt(s: string, i: nat, unit: char)
    requires i <= |s|
  {
    var n := DigitRun(s, i);
    n == 0 || i + n == |s| || s[i + n] != unit
  }

  /** Before a non-digit, or at the end, no group can match. */
  lemma NoGroupBeforeNonDigit(s: string, i: nat, unit: char)
    requires i <= |s| && (i == |s| || !IsDigit(s[i]))
    ensures NoGroupAt(s, i, unit)
  {
    DigitRunIs(s, i, 0);
  }

  /** Where a component `d` for `unit` is written, the group for `unit` captures `d`,
      and a group for any other unit cannot match. */
  lemma GroupAtComponent(s: string, i: nat, d: Option<string>, unit: char)
    requires !IsDigit(unit) && DigitGroup(d)
    requires i + |Component(d, unit)| <= |s| && s[i..i + |Component(d, unit)|] == Component(d, unit)
    ensures d.Some? ==> OptionalGroup(s, i, unit) == (d, i + |Component(d, unit)|)
    ensures d.Some? ==> forall other :: other != unit ==> NoGroupAt(s, i, other)
  {
    if d.Some? {
      var w := d.value;
      assert forall j :: i <= j < i + |w| ==> s[j] == Component(d, unit)[j - i] == w[j - i];
      assert s[i + |w|] == Component(d, unit)[|w|] == unit;
      DigitRunIs(s, i, |w|);
      assert s[i..i + |w|] == Component(d, unit)[..|w|] == w;
    }
  }

  /** Splitting a slice that holds `x + y`. */
  lemma SliceParts(s: string, i: nat, x: string, y: string)
    requires i + |x| + |y| <= |s| && s[i..i + |x| + |y|] == x + y
    ensures s[i..i + |x|] == x && s[i + |x|..i + |x| + |y|] == y
  {
    assert s[i..i + |x|] == s[i..i + |x| + |y|][..|x|];
    assert s[i + |x|..i + |x| + |y|] == s[i..i + |x| + |y|][|x|..];
  }

  /** The seconds group captures a written seconds component; no group can match there
      when it is left out and a non-digit or the end follows. */
  lemma SecondsGroup(s: string, pS: nat, ds: Option<string>)
    requires DigitGroup(ds)
    requires pS + |Component(ds, 'S')| <= |s| && s[pS..pS + |Component(ds, 'S')|] == Component(ds, 'S')
    requires ds.None? ==> pS == |s| || !IsDigit(s[pS])
    ensures OptionalGroup(s, pS, 'S').0 == ds
    ensures NoGroupAt(s, pS, 'M') && NoGroupAt(s, pS, 'H')
  {
    GroupAtComponent(s, pS, ds, 'S');
    if ds.None? {
      NoGroupBeforeNonDigit(s, pS, 'S');
      NoGroupBeforeNonDigit(s, pS, 'M');
      NoGroupBeforeNonDigit(s, pS, 'H');
    }
  }

  /** The minutes group captures a written minutes component and ends where the seconds
      component starts; the hours group cannot match there. */
  lemma MinutesGroup(s: string, pM: nat, pS: nat, dm: Option<string>)
    requires DigitGroup(dm)
    requires pS == pM + |Component(dm, 'M')| && pS <= |s| && s[pM..pS] == Component(dm, 'M')
    requires NoGroupAt(s, pS, 'M') && NoGroupAt(s, pS, 'H')
    ensures OptionalGroup(s, pM, 'M') == (dm, pS)
    ensures NoGroupAt(s, pM, 'H')
  {
    GroupAtComponent(s, pM, dm, 'M');
  }

  /** The hours group captures a written hours component and ends where the minutes
      component starts. */
  lemma HoursGroup(s: string, pH: nat, pM: nat, dh: Option<string>)
    requires DigitGroup(dh)
    requires pM == pH + |Component(dh, 'H')| && pM <= |s| && s[pH..pM] == Component(dh, 'H')
    requires NoGroupAt(s, pM, 'H')
    ensures OptionalGroup(s, pH, 'H') == (dh, pM)
  {
    GroupAtComponent(s, pH, dh, 'H');
  }

  /** The text `PT<A><B><C>` at `p0`, cut into its pieces. */
  lemma ComponentSlices(s: string, p0: nat, A: string, B: string, C: string)
    requires p0 + 2 + |A| + |B| + |C| <= |s| && s[p0..p0 + 2 + |A| + |B| + |C|] == "PT" + A + B + C
    ensures s[p0..p0 + 2] == "PT"
    ensures s[p0 + 2..p0 + 2 + |A|] == A
    ensures s[p0 + 2 + |A|..p0 + 2 + |A| + |B|] == B
    ensures s[p0 + 2 + |A| + |B|..p0 + 2 + |A| + |B| + |C|] == C
  {
    SliceParts(s, p0, "PT" + A + B, C);
    SliceParts(s, p0, "PT" + A, B);
    SliceParts(s, p0, "PT", A);
  }

  /** The match at `p0` is made of the three optional groups tried one after the other. */
  lemma MatchAtGroups(s: string, p0: nat, pM: nat, pS: nat, dh: Option<string>, dm: Option<string>, ds: Option<string>)
    requires OccursAt(s, "PT", p0) && pM <= |s| && pS <= |s|
    requires OptionalGroup(s, p0 + 2, 'H') == (dh, pM)
    requires OptionalGroup(s, pM, 'M') == (dm, pS)
    requires OptionalGroup(s, pS, 'S').0 == ds
    ensures MatchAt(s, p0).groups == Groups(dh, dm, ds)
  {
  }

  /** The match at a `PT` followed by written components captures each of them. */
  lemma MatchOfComponents(s: string, p0: nat, pM: nat, pS: nat, dh: Option<string>, dm: Option<string>, ds: Option<string>)
    requires DigitGroup(dh) && DigitGroup(dm) && DigitGroup(ds)
    requires OccursAt(s, "PT", p0)
    requires pM == p0 + 2 + |Component(dh, 'H')| && pS == pM + |Component(dm, 'M')|
    requires pS + |Component(ds, 'S')| <= |s|
    requires s[p0 + 2..pM] == Component(dh, 'H') && s[pM..pS] == Component(dm, 'M')
    requires s[pS..pS + |Component(ds, 'S')|] == Component(ds, 'S')
    requires ds.None? ==> pS == |s| || !IsDigit(s[pS])
    ensures MatchAt(s, p0).groups == Groups(dh, dm, ds)
  {
    assert OptionalGroup(s, pS, 'S').0 == ds && NoGroupAt(s, pS, 'M') && NoGroupAt(s, pS, 'H') by {
      SecondsGroup(s, pS, ds);
    }
    assert OptionalGroup(s, pM, 'M') == (dm, pS) && NoGroupAt(s, pM, 'H') by {
      MinutesGroup(s, pM, pS, dm);
    }
    assert OptionalGroup(s, p0 + 2, 'H') == (dh, pM) by {
      HoursGroup(s, p0 + 2, pM, dh);
    }
    MatchAtGroups(s, p0, pM, pS, dh, dm, ds);
  }

  /** Behind a prefix that holds no `PT`, the first `PT` of the rest is the first `PT` of the
      whole string: a `P` at the end of the prefix is followed by `P`, not `T`. */
  lemma FirstMatchAfterPrefix(pre: string, rest: string)
    requires !Contains(pre, "PT")
    requires OccursAt(rest, "PT", 0)
    ensures FirstMatch(pre + rest).Some? && FirstMatch(pre + rest).value.index == |pre|
  {
    var s := pre + rest;
    OccursAtShift(pre, rest, "PT", 0);
    forall j | 0 <= j < |pre| ensures !OccursAt(s, "PT", j) {
      if j + 2 <= |pre| {
        OccursAtExtend(pre, rest, "PT", j);
      } else {
        assert s[j + 1] == rest[0];
      }
    }
  }

  /** A written component is read back as the amount it was written for. */
  lemma GroupNumberCapture(v: Option<nat>)
    ensures GroupNumber(Capture(v)) == Amount(v)
  {
    if v.Some? {
      NatToStringRoundTrip(v.value);
    }
  }

  /** Where the pieces of `pre + "PT" + A + B + C + post` lie. */
  lemma Layout(s: string, pre: string, A: string, B: string, C: string, post: string, pM: nat, pS: nat)
    requires s == pre + ("PT" + A + B + C) + post
    requires pM == |pre| + 2 + |A| && pS == pM + |B|
    ensures s[|pre| + 2..pM] == A && s[pM..pS] == B && pS + |C| <= |s| && s[pS..pS + |C|] == C
    ensures |post| == 0 ==> pS + |C| == |s|
    ensures |post| > 0 ==> s[pS + |C|] == post[0]
  {
    var F := "PT" + A + B + C;
    assert s[|pre|..|pre| + |F|] == F;
    ComponentSlices(s, |pre|, A, B, C);
  }

  /** The seconds read where the first match is at a `PT` followed by written components. */
  lemma SecondsOfComponents(s: string, p0: nat, pM: nat, pS: nat, dh: Option<string>, dm: Option<string>, ds: Option<string>)
    requires DigitGroup(dh) && DigitGroup(dm) && DigitGroup(ds)
    requires OccursAt(s, "PT", p0) && FirstMatch(s) == Some(MatchAt(s, p0))
    requires pM == p0 + 2 + |Component(dh, 'H')| && pS == pM + |Component(dm, 'M')|
    requires pS + |Component(ds, 'S')| <= |s|
    requires s[p0 + 2..pM] == Component(dh, 'H') && s[pM..pS] == Component(dm, 'M')
    requires s[pS..pS + |Component(ds, 'S')|] == Component(ds, 'S')
    requires ds.None? ==> pS == |s| || !IsDigit(s[pS])
    ensures IsoDurationToSeconds(s) == GroupNumber(dh) * 3600 + GroupNumber(dm) * 60 + GroupNumber(ds)
  {
    MatchOfComponents(s, p0, pM, pS, dh, dm, ds);
  }

  /** The first match of `pre + F + post`, for `F` starting with `PT`, is at `F`. */
  lemma FirstMatchAtLayout(pre: string, F: string, post: string)
    requires !Contains(pre, "PT")
    requires |F| >= 2 && F[..2] == "PT"
    ensures OccursAt(pre + F + post, "PT", |pre|)
    ensures FirstMatch(pre + F + post) == Some(MatchAt(pre + F + post, |pre|))
  {
    ConcatAssociative(pre, F, post);
    assert (F + post)[..2] == "PT";
    FirstMatchAfterPrefix(pre, F + post);
  }

  /** Written components behind a prefix without `PT` are the groups of the first match. */
  lemma ParseComponents(pre: string, dh: Option<string>, dm: Option<string>, ds: Option<string>, post: string)
    requires DigitGroup(dh) && DigitGroup(dm) && DigitGroup(ds)
    requires !Contains(pre, "PT")
    requires ds.None? && |post| > 0 ==> !IsDigit(post[0])
    ensures IsoDurationToSeconds(pre + ("PT" + Component(dh, 'H') + Component(dm, 'M') + Component(ds, 'S')) + post)
         == GroupNumber(dh) * 3600 + GroupNumber(dm) * 60 + GroupNumber(ds)
  {
    var A, B, C := Component(dh, 'H'), Component(dm, 'M'), Component(ds, 'S');
    var F := "PT" + A + B + C;
    var s := pre + F + post;
    var pM := |pre| + 2 + |A|;
    var pS := pM + |B|;
    Layout(s, pre, A, B, C, post, pM, pS);
    FirstMatchAtLayout(pre, F, post);
    SecondsOfComponents(s, |pre|, pM, pS, dh, dm, ds);
  }

  /** Unanchored round trip: a duration written in ISO 8601 form, with any text before it that
      holds no `PT` (a trailing `P` included) and any text after it that cannot extend the
      match, reads back as
      hours * 3600 + minutes * 60 + seconds, a left-out component counting as zero. */
  lemma ParseFormatted(pre: string, h: Option<nat>, m: Option<nat>, sec: Option<nat>, post: string)
    requires !Contains(pre, "PT")
    requires sec.None? && |post| > 0 ==> !IsDigit(post[0])
    ensures IsoDurationToSeconds(pre + FormatDuration(h, m, sec) + post)
         == Amount(h) * 3600 + Amount(m) * 60 + Amount(sec)
  {
    ParseComponents(pre, Capture(h), Capture(m), Capture(sec), post);
    GroupNumberCapture(h);
    GroupNumberCapture(m);
    GroupNumberCapture(sec);
  }

  // Worked instances of the round trip.

  lemma HoursMinutesSeconds(s: string)
    requires s == "PT1H2M3S"
    ensures IsoDurationToSeconds(s) == 3723
  {
    assert s == "" + FormatDuration(Some(1), Some(2), Some(3)) + "";
    ParseFormatted("", Some(1), Some(2), Some(3), "");
  }

  /** A stray `P` before the duration does not hide it: `PPT1H` is read from index 1. */
  lemma LeadingPReadsHour(s: string)
    requires s == "PPT1H"
    ensures IsoDurationToSeconds(s) == 3600
  {
    assert s == "P" + FormatDuration(Some(1), None, None) + "";
    ParseFormatted("P", Some(1), None, None, "");
  }

  /** A duration with a date part has its `T` after the date, so `PT` does not occur and
      `P1DT2H` reads as 0 seconds. */
  lemma DatePartReadsZero(s: string)
    requires s == "P1DT2H"
    ensures IsoDurationToSeconds(s) == 0
  {
    DatePartLacksPT(s);
  }

  lemma DatePartLacksPT(s: string)
    requires s == "P1DT2H"
    ensures !Contains(s, "PT")
  {
    forall j | 0 <= j <= |s| - 2
      ensures !OccursAt(s, "PT", j)
    {
      assert s[j] != 'P' || s[j + 1] != 'T';
    }
  }

  /** Components out of order: after `3S` the pattern has no group left for `2M`. */
  lemma OutOfOrder(s: string)
    requires s == "PT3S2M"
    ensures IsoDurationToSeconds(s) == 3
  {
    assert s == "" + FormatDuration(None, None, Some(3)) + "2M";
    ParseFormatted("", None, None, Some(3), "2M");
  }

  /** A fraction stops every group: `PT1.5S` matches only `PT` and reads as 0 seconds. */
  lemma FractionReadsZero(s: string)
    requires s == "PT1.5S"
    ensures IsoDurationToSeconds(s) == 0
  {
    assert s == "" + "PT" + "1.5S";
    FirstMatchAtLayout("", "PT", "1.5S");
    DigitRunIs(s, 2, 1);
  }

  /** Only the first `PT` is read. */
  lemma FirstDurationWins(s: string)
    requires s == "PT1M PT5S"
    ensures IsoDurationToSeconds(s) == 60
  {
    assert s == "" + FormatDuration(None, Some(1), None) + " PT5S";
    ParseFormatted("", None, Some(1), None, " PT5S");
  }
}

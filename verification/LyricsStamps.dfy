/**
 Every way to write a time stamp, and the time it is read as: hours may be left out, and the
 fraction may have any number of digits up to three.
 */
module LyricsStamps {
  import opened Options
  import opened Text
  import opened LyricsModel

  /** The digits of a stamp as they are written, and the character between seconds and fraction. */
  datatype Form = Form(hours: string, minutes: string, seconds: string, dot: char, fraction: string)

  predicate Figures(s: string, least: nat, most: nat) {
    least <= |s| <= most && forall i :: 0 <= i < |s| ==> '0' <= s[i] <= '9'
  }

  predicate LooseForm(x: Form) {
    && Figures(x.hours, 0, 2) && Figures(x.minutes, 1, 2) && Figures(x.seconds, 1, 2) && Figures(x.fraction, 0, 3)
    && x.dot != '\n'
  }

  /** The dot may be any character that cannot be taken for a part of the numbers. */
  predicate AnyForm(x: Form) {
    LooseForm(x) && !('0' <= x.dot <= '9') && x.dot != ':'
  }

  predicate ValidForm(x: Form) {
    AnyForm(x) && x.dot == '.'
  }

  function HoursPart(x: Form): string {
    if x.hours == "" then "" else x.hours + ":"
  }

  function FractionPart(x: Form): string {
    if x.fraction == "" then "" else [x.dot] + x.fraction
  }

  /** [hh:mm:ss.fff], without hours or fraction if there are none. */
  function Written(x: Form): string {
    "[" + HoursPart(x) + x.minutes + ":" + x.seconds + FractionPart(x) + "]"
  }

  function Figure(c: char): int {
    c as int - '0' as int
  }

  /** The number that up to three figures stand for. */
  function Value(s: string): int {
    if |s| == 0 then 0
    else if |s| == 1 then Figure(s[0])
    else if |s| == 2 then 10 * Figure(s[0]) + Figure(s[1])
    else 100 * Figure(s[0]) + 10 * Figure(s[1]) + Figure(s[2])
  }

  /** A fraction of one digit is in tenths of a second, of two in hundredths, of three in thousandths. */
  function TimeOf(x: Form): int {
    ((Value(x.hours) * 60 + Value(x.minutes)) * 60 + Value(x.seconds)) * 1000
    + (if |x.fraction| == 1 then 100 * Value(x.fraction)
       else if |x.fraction| == 2 then 10 * Value(x.fraction)
       else Value(x.fraction))
  }

  /** A fraction can be read behind a character of one byte. */
  predicate Legible(x: Form) {
    x.fraction == "" || x.dot as int < 128
  }

  /** Digits and a bracket, which a stamp without a fraction takes for one: its own bracket can be any character. */
  predicate LooksLikeFraction(rest: string) {
    exists n :: 1 <= n <= 3 && n < |rest| && rest[n] == ']' && forall i :: 0 <= i < n ==> '0' <= rest[i] <= '9'
  }

  // ----- The order in which the pattern is tried -----

  lemma {:induction false} FractionFirst(s: string, h: nat, m: nat, c: nat, f: nat, first: nat)
    requires first <= f && Fits(s, h, m, c, first) && forall f': nat :: first < f' <= f ==> !Fits(s, h, m, c, f')
    ensures MatchFraction(s, h, m, c, f) == Some(MatchOf(s, h, m, c, first))
    decreases f
  {
    hide Fits, MatchOf;
    if first < f {
      FractionFirst(s, h, m, c, f - 1, first);
    }
  }

  lemma {:induction false} NoFraction(s: string, h: nat, m: nat, c: nat, f: nat)
    requires forall f': nat :: f' <= f ==> !Fits(s, h, m, c, f')
    ensures MatchFraction(s, h, m, c, f).None?
    decreases f
  {
    hide Fits;
    if f > 0 {
      NoFraction(s, h, m, c, f - 1);
    }
  }

  lemma {:induction false} SecondsFirst(s: string, h: nat, m: nat, c: nat, first: nat)
    requires 1 <= first <= c && MatchFraction(s, h, m, first, 3).Some?
    requires forall c': nat, f: nat :: first < c' <= c ==> !Fits(s, h, m, c', f)
    ensures MatchSeconds(s, h, m, c) == MatchFraction(s, h, m, first, 3)
    decreases c
  {
    hide Fits, MatchFraction;
    if first < c {
      NoFraction(s, h, m, c, 3);
      SecondsFirst(s, h, m, c - 1, first);
    }
  }

  lemma {:induction false} NoSeconds(s: string, h: nat, m: nat, c: nat)
    requires forall c': nat, f: nat :: c' <= c ==> !Fits(s, h, m, c', f)
    ensures MatchSeconds(s, h, m, c).None?
    decreases c
  {
    hide Fits, MatchFraction;
    if c > 0 {
      NoFraction(s, h, m, c, 3);
      NoSeconds(s, h, m, c - 1);
    }
  }

  lemma {:induction false} MinutesFirst(s: string, h: nat, m: nat, first: nat)
    requires 1 <= first <= m && MatchSeconds(s, h, first, 2).Some?
    requires forall m': nat, c: nat, f: nat :: first < m' <= m ==> !Fits(s, h, m', c, f)
    ensures MatchMinutes(s, h, m) == MatchSeconds(s, h, first, 2)
    decreases m
  {
    hide Fits, MatchSeconds;
    if first < m {
      NoSeconds(s, h, m, 2);
      MinutesFirst(s, h, m - 1, first);
    }
  }

  lemma {:induction false} NoMinutes(s: string, h: nat, m: nat)
    requires forall m': nat, c: nat, f: nat :: m' <= m ==> !Fits(s, h, m', c, f)
    ensures MatchMinutes(s, h, m).None?
    decreases m
  {
    hide Fits, MatchSeconds;
    if m > 0 {
      NoSeconds(s, h, m, 2);
      NoMinutes(s, h, m - 1);
    }
  }

  lemma {:induction false} HoursFirst(s: string, h: nat, first: nat)
    requires first <= h && MatchMinutes(s, first, 2).Some?
    requires forall h': nat, m: nat, c: nat, f: nat :: first < h' <= h && 1 <= m <= 2 ==> !Fits(s, h', m, c, f)
    ensures MatchHours(s, h) == MatchMinutes(s, first, 2)
    decreases h
  {
    hide Fits, MatchSeconds;
    if first < h {
      NoSeconds(s, h, 2, 2);
      NoSeconds(s, h, 1, 2);
      assert MatchMinutes(s, h, 2).None?;
      HoursFirst(s, h - 1, first);
    }
  }

  // ----- A written stamp -----

  /** Five pieces after one another. */
  lemma Places(p: string, m: string, q: string, r: string)
    ensures var s, a, b := p + m + ":" + q + r, |p|, |p| + |m| + 1;
            && |s| == b + |q| + |r| && s[..a] == p && s[a..a + |m|] == m && s[a + |m|] == ':'
            && s[b..b + |q|] == q && s[b + |q|..] == r
  {
  }

  lemma WithinPrefix(s: string, p: string, from: nat, to: nat)
    requires from <= to <= |p| <= |s| && s[..|p|] == p
    ensures s[from..to] == p[from..to] && forall i :: 0 <= i < |p| ==> s[i] == p[i]
  {
    assert forall i :: 0 <= i < |p| ==> s[i] == s[..|p|][i];
  }

  lemma WithinSuffix(s: string, d: nat, from: nat, to: nat)
    requires d <= |s| && from <= to <= |s| - d
    ensures s[d + from..d + to] == s[d..][from..to] && forall i :: 0 <= i < |s| - d ==> s[d + i] == s[d..][i]
  {
  }

  predicate HoursAt(s: string, x: Form) {
    x.hours != "" ==> |x.hours| + 1 < |s| && s[1..|x.hours| + 1] == x.hours && s[|x.hours| + 1] == ':'
  }

  predicate FractionAt(s: string, x: Form, d: nat, e: nat) {
    && e == (if x.fraction == "" then d else d + |x.fraction| + 1) && e < |s| && s[e] == ']'
    && (x.fraction != "" ==> s[d] == x.dot && s[d + 1..e] == x.fraction)
  }

  /** Where the parts of a written stamp stand: minutes at a, seconds at b, their end at d, the closing bracket at e. */
  predicate Stands(s: string, x: Form, a: nat, b: nat, d: nat, e: nat) {
    && a == (if x.hours == "" then 1 else |x.hours| + 2) && b == a + |x.minutes| + 1 && d == b + |x.seconds|
    && FractionAt(s, x, d, e) && HoursAt(s, x)
    && s[0] == '[' && s[a..a + |x.minutes|] == x.minutes && s[a + |x.minutes|] == ':' && s[b..d] == x.seconds
  }

  lemma WrittenIs(x: Form, rest: string)
    ensures Written(x) + rest == ("[" + HoursPart(x)) + x.minutes + ":" + x.seconds + (FractionPart(x) + "]" + rest)
    ensures |Written(x)| == |HoursPart(x)| + |x.minutes| + |x.seconds| + |FractionPart(x)| + 3
  {
    hide HoursPart, FractionPart;
  }

  lemma HoursStand(s: string, x: Form, p: string)
    requires p == "[" + HoursPart(x) && |p| <= |s| && s[..|p|] == p
    ensures |p| == (if x.hours == "" then 1 else |x.hours| + 2) && s[0] == '[' && HoursAt(s, x)
  {
    assert p[0] == '[' && s[0] == p[0];
    if x.hours != "" {
      assert p == "[" + x.hours + ":";
      assert p[1..|x.hours| + 1] == x.hours && p[|x.hours| + 1] == ':';
      WithinPrefix(s, p, 1, |x.hours| + 1);
    }
  }

  lemma FractionStands(s: string, x: Form, d: nat, rest: string)
    requires d <= |s| && s[d..] == FractionPart(x) + "]" + rest
    ensures FractionAt(s, x, d, d + |FractionPart(x)|)
  {
    var r, n := FractionPart(x) + "]" + rest, |FractionPart(x)|;
    assert r[n] == ']';
    if x.fraction != "" {
      assert r[0] == x.dot && r[1..n] == x.fraction;
    }
    WithinSuffix(s, d, if x.fraction == "" then 0 else 1, n);
  }

  lemma PartsOfWritten(x: Form, rest: string) returns (a: nat, b: nat, d: nat, e: nat)
    requires LooseForm(x)
    ensures Stands(Written(x) + rest, x, a, b, d, e) && |Written(x)| == e + 1
  {
    hide Written, HoursPart, FractionPart, LooseForm, HoursAt, FractionAt;
    WrittenIs(x, rest);
    var p, r := "[" + HoursPart(x), FractionPart(x) + "]" + rest;
    var s := Written(x) + rest;
    Places(p, x.minutes, x.seconds, r);
    a, b := |p|, |p| + |x.minutes| + 1;
    d := b + |x.seconds|;
    e := d + |FractionPart(x)|;
    HoursStand(s, x, p);
    FractionStands(s, x, d, rest);
    FractionEnds(s, x, d, e);
  }

  lemma FractionEnds(s: string, x: Form, d: nat, e: nat)
    requires FractionAt(s, x, d, e)
    ensures d <= e < |s|
  {
  }

  lemma NumIsValue(s: string)
    requires Figures(s, 0, 3)
    ensures AllDigits(s) && Num(s) == Value(s)
  {
    if |s| > 0 {
      assert s[..|s| - 1][..0] == "";
      if |s| == 3 {
        assert s[..2][..1] == s[..1];
      }
    }
  }

  lemma DigitsAreDigits(x: Form)
    requires LooseForm(x)
    ensures AllDigits(x.hours) && AllDigits(x.minutes) && AllDigits(x.seconds) && AllDigits(x.fraction)
    ensures x.dot != '\n'
  {
  }

  /** The stamp fits with its own numbers of digits. */
  lemma FitsItself(s: string, x: Form, a: nat, b: nat, d: nat, e: nat)
    requires LooseForm(x) && Stands(s, x, a, b, d, e)
    ensures Fits(s, |x.hours|, |x.minutes|, |x.seconds|, |x.fraction|)
  {
    DigitsAreDigits(x);
    hide LooseForm, AllDigits;
  }

  lemma MatchOfParts(s: string, x: Form, a: nat, b: nat, d: nat, e: nat)
    requires Stands(s, x, a, b, d, e) && Fits(s, |x.hours|, |x.minutes|, |x.seconds|, |x.fraction|)
    requires AllDigits(x.hours) && AllDigits(x.minutes) && AllDigits(x.seconds) && AllDigits(x.fraction)
    requires Num("") == 0
    ensures MatchOf(s, |x.hours|, |x.minutes|, |x.seconds|, |x.fraction|) ==
              Match(e + 1, ((Num(x.hours) * 60 + Num(x.minutes)) * 60 + Num(x.seconds)) * 1000 + Millis(Num(x.fraction), |x.fraction|), Legible(x))
  {
    hide Fits, Num, AllDigits;
  }

  /** Read that way it has its own time. */
  lemma ItsOwnTime(s: string, x: Form, a: nat, b: nat, d: nat, e: nat)
    requires LooseForm(x) && Stands(s, x, a, b, d, e) && Fits(s, |x.hours|, |x.minutes|, |x.seconds|, |x.fraction|)
    ensures MatchOf(s, |x.hours|, |x.minutes|, |x.seconds|, |x.fraction|) == Match(e + 1, TimeOf(x), Legible(x))
  {
    hide Fits, Num, Value, AllDigits, MatchOf, Stands;
    NumIsValue(x.hours);
    NumIsValue(x.minutes);
    NumIsValue(x.seconds);
    NumIsValue(x.fraction);
    NumOfNothing();
    MatchOfParts(s, x, a, b, d, e);
  }

  lemma NumOfNothing()
    ensures Num("") == 0
  {
  }

  lemma NotAllDigits(s: string, from: nat, to: nat, k: nat)
    requires from <= k < to <= |s| && !('0' <= s[k] <= '9')
    ensures !AllDigits(s[from..to])
  {
    assert s[from..to][k - from] == s[k];
  }

  lemma FigureAt(s: string, from: nat, to: nat, part: string, k: nat)
    requires from <= k < to <= |s| && s[from..to] == part && Figures(part, 0, 3)
    ensures '0' <= s[k] <= '9'
  {
    assert s[k] == part[k - from];
  }

  /** With more hours digits, or with any where none are written, the pattern does not fit. */
  lemma NoMoreHours(s: string, x: Form, a: nat, b: nat, d: nat, e: nat, h: nat, m: nat, c: nat, f: nat)
    requires AnyForm(x) && Stands(s, x, a, b, d, e) && |x.hours| < h <= 2 && 1 <= m <= 2
    ensures !Fits(s, h, m, c, f)
  {
    if x.hours == "" {
      HoursFromMinutes(s, x, b, d, e, h, m, c, f);
    } else if h + 1 <= |s| {
      NotAllDigits(s, 1, h + 1, |x.hours| + 1);
    }
  }

  lemma HoursFromMinutes(s: string, x: Form, b: nat, d: nat, e: nat, h: nat, m: nat, c: nat, f: nat)
    requires AnyForm(x) && Stands(s, x, 1, b, d, e) && x.hours == "" && 1 <= h <= 2 && 1 <= m <= 2
    ensures !Fits(s, h, m, c, f)
  {
    if h > |x.minutes| {
      if h + 1 <= |s| {
        NotAllDigits(s, 1, h + 1, |x.minutes| + 1);
      }
    } else if h < |x.minutes| {
      FigureAt(s, 1, 1 + |x.minutes|, x.minutes, h + 1);
    } else if m < |x.seconds| {
      FigureAt(s, b, d, x.seconds, b + m);
    } else if m > |x.seconds| && b + m <= |s| {
      NotAllDigits(s, b, b + m, d);
    }
  }

  lemma NoMoreMinutes(s: string, x: Form, a: nat, b: nat, d: nat, e: nat, m: nat, c: nat, f: nat)
    requires AnyForm(x) && Stands(s, x, a, b, d, e) && |x.minutes| < m
    ensures !Fits(s, |x.hours|, m, c, f)
  {
    if a + m <= |s| {
      NotAllDigits(s, a, a + m, a + |x.minutes|);
    }
  }

  lemma NoMoreSeconds(s: string, x: Form, a: nat, b: nat, d: nat, e: nat, c: nat, f: nat)
    requires AnyForm(x) && Stands(s, x, a, b, d, e) && |x.seconds| < c
    ensures !Fits(s, |x.hours|, |x.minutes|, c, f)
  {
    if b + c <= |s| {
      NotAllDigits(s, b, b + c, d);
    }
  }

  lemma FractionOfFit(s: string, h: nat, m: nat, c: nat, f: nat)
    requires f > 0
    ensures var d := (if h == 0 then 1 else h + 2) + m + 1 + c;
            Fits(s, h, m, c, f) ==> d + 1 + f < |s| && s[d + 1 + f] == ']' && AllDigits(s[d + 1..d + 1 + f])
  {
    hide AllDigits;
  }

  lemma FractionPlaces(s: string, x: Form, a: nat, b: nat, d: nat, e: nat)
    requires AnyForm(x) && Stands(s, x, a, b, d, e)
    ensures d == (if |x.hours| == 0 then 1 else |x.hours| + 2) + |x.minutes| + 1 + |x.seconds|
    ensures e < |s| && s[e] == ']' && e == if x.fraction == "" then d else d + |x.fraction| + 1
  {
  }

  lemma NoMoreFraction(s: string, x: Form, a: nat, b: nat, d: nat, e: nat, f: nat)
    requires AnyForm(x) && Stands(s, x, a, b, d, e) && |x.fraction| < f <= 3
    requires x.fraction != "" || !LooksLikeFraction(s[e + 1..])
    ensures !Fits(s, |x.hours|, |x.minutes|, |x.seconds|, f)
  {
    hide Fits, Stands, AnyForm, AllDigits, LooksLikeFraction;
    FractionOfFit(s, |x.hours|, |x.minutes|, |x.seconds|, f);
    FractionPlaces(s, x, a, b, d, e);
    if d + 1 + f < |s| {
      if x.fraction != "" {
        NotAllDigits(s, d + 1, d + 1 + f, e);
      } else {
        NoFractionFollows(s, d, f);
      }
    }
  }

  lemma NoFractionFollows(s: string, d: nat, f: nat)
    requires 1 <= f <= 3 && d + 1 + f < |s| && !LooksLikeFraction(s[d + 1..])
    ensures !(AllDigits(s[d + 1..d + 1 + f]) && s[d + 1 + f] == ']')
  {
    var rest := s[d + 1..];
    assert rest[f] == s[d + 1 + f] && forall i :: 0 <= i < f ==> rest[i] == s[d + 1..d + 1 + f][i];
  }

  /**
   Whatever its form, a written stamp is matched with its own length and time, and can be read
   unless a dot of several bytes stands before a fraction; only a stamp without a fraction
   must not be followed by what looks like one.
   */
  lemma StampMatches(x: Form, rest: string)
    requires AnyForm(x) && (x.fraction != "" || !LooksLikeFraction(rest))
    ensures MatchTime(Written(x) + rest) == Some(Match(|Written(x)|, TimeOf(x), Legible(x)))
  {
    var s := Written(x) + rest;
    var a, b, d, e := PartsOfWritten(x, rest);
    var h, m, c, f := |x.hours|, |x.minutes|, |x.seconds|, |x.fraction|;
    assert s[e + 1..] == rest;
    FitsItself(s, x, a, b, d, e);
    ItsOwnTime(s, x, a, b, d, e);
    forall f': nat | f < f' <= 3 ensures !Fits(s, h, m, c, f') {
      NoMoreFraction(s, x, a, b, d, e, f');
    }
    forall c': nat, f': nat | c < c' <= 2 ensures !Fits(s, h, m, c', f') {
      NoMoreSeconds(s, x, a, b, d, e, c', f');
    }
    forall m': nat, c': nat, f': nat | m < m' <= 2 ensures !Fits(s, h, m', c', f') {
      NoMoreMinutes(s, x, a, b, d, e, m', c', f');
    }
    forall h': nat, m': nat, c': nat, f': nat | h < h' <= 2 && 1 <= m' <= 2 ensures !Fits(s, h', m', c', f') {
      NoMoreHours(s, x, a, b, d, e, h', m', c', f');
    }
    hide Fits, MatchOf, Stands, Written, TimeOf, LooksLikeFraction;
    FractionFirst(s, h, m, c, 3, f);
    SecondsFirst(s, h, m, 2, c);
    MinutesFirst(s, h, 2, m);
    HoursFirst(s, 2, h);
  }

  lemma {:induction false} FractionSome(s: string, h: nat, m: nat, c: nat, f: nat, one: nat)
    requires one <= f && Fits(s, h, m, c, one)
    ensures MatchFraction(s, h, m, c, f).Some?
    decreases f
  {
    hide Fits, MatchOf;
    if one < f {
      FractionSome(s, h, m, c, f - 1, one);
    }
  }

  lemma {:induction false} SecondsSome(s: string, h: nat, m: nat, c: nat, one: nat)
    requires 1 <= one <= c && MatchFraction(s, h, m, one, 3).Some?
    ensures MatchSeconds(s, h, m, c).Some?
    decreases c
  {
    hide MatchFraction;
    if one < c {
      SecondsSome(s, h, m, c - 1, one);
    }
  }

  lemma {:induction false} MinutesSome(s: string, h: nat, m: nat, one: nat)
    requires 1 <= one <= m && MatchSeconds(s, h, one, 2).Some?
    ensures MatchMinutes(s, h, m).Some?
    decreases m
  {
    hide MatchSeconds;
    if one < m {
      MinutesSome(s, h, m - 1, one);
    }
  }

  lemma {:induction false} HoursSome(s: string, h: nat, one: nat)
    requires one <= h && MatchMinutes(s, one, 2).Some?
    ensures MatchHours(s, h).Some?
    decreases h
  {
    hide MatchMinutes;
    if one < h {
      HoursSome(s, h - 1, one);
    }
  }

  /** A written stamp is matched in any case, whatever follows it. */
  lemma StampIsMatched(x: Form, rest: string)
    requires LooseForm(x)
    ensures MatchTime(Written(x) + rest).Some?
  {
    hide Written, Stands, Fits, MatchFraction, MatchSeconds, MatchMinutes, MatchHours;
    var s := Written(x) + rest;
    var a, b, d, e := PartsOfWritten(x, rest);
    FitsItself(s, x, a, b, d, e);
    FractionSome(s, |x.hours|, |x.minutes|, |x.seconds|, 3, |x.fraction|);
    SecondsSome(s, |x.hours|, |x.minutes|, 2, |x.seconds|);
    MinutesSome(s, |x.hours|, 2, |x.minutes|);
    HoursSome(s, 2, |x.hours|);
  }

  /** A stamp without a fraction that is followed by a digit and a bracket takes its own bracket for the dot. */
  lemma BracketIsTaken()
    ensures var x := Form("", "0", "1", '.', "");
            var m := MatchTime(Written(x) + "5]");
            ValidForm(x) && m.Some? && m.value.length == |Written(x)| + 2 && m.value.millis == TimeOf(x) + 500
  {
    var x, taken := Form("", "0", "1", '.', ""), Form("", "0", "1", ']', "5");
    assert Written(x) + "5]" == "[0:1]5]" == Written(taken) + "";
    hide MatchTime;
    StampMatches(taken, "");
  }
}

/**
 What the parts of the parser look for, and what the parser makes of any text: every line that
 begins with stamps, together with the lines that go on with its text, gives its entries.
 */
module LyricsRules {
  import opened Options
  import opened Text
  import opened LyricsModel
  import opened LyricsStamps

  // ----- Stamps -----

  lemma {:induction false} FractionFits(s: string, h: nat, m: nat, c: nat, f: nat) returns (f': nat)
    requires MatchFraction(s, h, m, c, f).Some?
    ensures f' <= f && Fits(s, h, m, c, f') && MatchFraction(s, h, m, c, f) == Some(MatchOf(s, h, m, c, f'))
    decreases f
  {
    hide MatchOf;
    if Fits(s, h, m, c, f) {
      f' := f;
    } else {
      f' := FractionFits(s, h, m, c, f - 1);
    }
  }

  lemma {:induction false} SecondsFit(s: string, h: nat, m: nat, c: nat) returns (c': nat, f': nat)
    requires MatchSeconds(s, h, m, c).Some?
    ensures 1 <= c' <= c && f' <= 3 && Fits(s, h, m, c', f') && MatchSeconds(s, h, m, c) == Some(MatchOf(s, h, m, c', f'))
    decreases c
  {
    hide MatchFraction, MatchOf, Fits;
    if MatchFraction(s, h, m, c, 3).Some? {
      c' := c;
      f' := FractionFits(s, h, m, c, 3);
    } else {
      c', f' := SecondsFit(s, h, m, c - 1);
    }
  }

  lemma {:induction false} MinutesFit(s: string, h: nat, m: nat) returns (m': nat, c': nat, f': nat)
    requires MatchMinutes(s, h, m).Some?
    ensures 1 <= m' <= m && 1 <= c' <= 2 && f' <= 3 && Fits(s, h, m', c', f')
    ensures MatchMinutes(s, h, m) == Some(MatchOf(s, h, m', c', f'))
    decreases m
  {
    hide MatchSeconds, MatchOf, Fits;
    if MatchSeconds(s, h, m, 2).Some? {
      m' := m;
      c', f' := SecondsFit(s, h, m, 2);
    } else {
      m', c', f' := MinutesFit(s, h, m - 1);
    }
  }

  lemma {:induction false} HoursFit(s: string, h: nat) returns (h': nat, m': nat, c': nat, f': nat)
    requires MatchHours(s, h).Some?
    ensures h' <= h && 1 <= m' <= 2 && 1 <= c' <= 2 && f' <= 3 && Fits(s, h', m', c', f')
    ensures MatchHours(s, h) == Some(MatchOf(s, h', m', c', f'))
    decreases h
  {
    hide MatchMinutes, MatchOf, Fits;
    if MatchMinutes(s, h, 2).Some? {
      h' := h;
      m', c', f' := MinutesFit(s, h, 2);
    } else {
      h', m', c', f' := HoursFit(s, h - 1);
    }
  }

  lemma SlicesJoin(s: string, i: nat, j: nat, k: nat)
    requires i <= j <= k <= |s|
    ensures s[i..j] + s[j..k] == s[i..k]
  {
  }

  lemma HoursOfFit(s: string, h: nat, x: Form)
    requires h + 1 < |s| && s[0] == '[' && h == |x.hours|
    requires h > 0 ==> x.hours == s[1..h + 1] && s[h + 1] == ':'
    ensures "[" + HoursPart(x) == s[..if h == 0 then 1 else h + 2]
  {
    if h > 0 {
      SlicesJoin(s, 0, 1, h + 1);
      SlicesJoin(s, 0, h + 1, h + 2);
      assert s[h + 1..h + 2] == ":" && s[0..1] == "[";
    }
  }

  lemma FractionOfFit(s: string, d: nat, f: nat, x: Form)
    requires d + (if f == 0 then 0 else f + 1) < |s| && f == |x.fraction|
    requires f > 0 ==> x.dot == s[d] && x.fraction == s[d + 1..d + f + 1]
    ensures FractionPart(x) == s[d..d + if f == 0 then 0 else f + 1]
  {
  }

  lemma WrittenOfFit(s: string, x: Form, a: nat, b: nat, d: nat, e: nat)
    requires a + |x.minutes| + 1 == b <= d <= e < |s|
    requires s[..a] == "[" + HoursPart(x) && s[a..b - 1] == x.minutes && s[b - 1] == ':' && s[b..d] == x.seconds
    requires s[d..e] == FractionPart(x) && s[e] == ']'
    ensures Written(x) == s[..e + 1]
  {
    hide HoursPart, FractionPart;
    SlicesJoin(s, 0, a, b - 1);
    SlicesJoin(s, 0, b - 1, b);
    SlicesJoin(s, 0, b, d);
    SlicesJoin(s, 0, d, e);
    SlicesJoin(s, 0, e, e + 1);
    assert s[b - 1..b] == ":" && s[e..e + 1] == "]";
  }

  function PartsOfFit(s: string, h: nat, m: nat, c: nat, f: nat): Form
    requires Fits(s, h, m, c, f)
  {
    var a := if h == 0 then 1 else h + 2;
    var d := a + m + 1 + c;
    Form(if h == 0 then "" else s[1..h + 1], s[a..a + m], s[a + m + 1..d],
         if f == 0 then '.' else s[d], if f == 0 then "" else s[d + 1..d + f + 1])
  }

  lemma DigitsOfFit(s: string, h: nat, m: nat, c: nat, f: nat)
    requires Fits(s, h, m, c, f) && h <= 2 && 1 <= m <= 2 && 1 <= c <= 2 && f <= 3
    ensures LooseForm(PartsOfFit(s, h, m, c, f))
  {
  }

  lemma EndsOfFit(s: string, h: nat, m: nat, c: nat, f: nat)
    requires Fits(s, h, m, c, f)
    ensures var x, a := PartsOfFit(s, h, m, c, f), if h == 0 then 1 else h + 2;
            var d := a + m + 1 + c;
            var e := if f == 0 then d else d + f + 1;
            e < |s| && s[..a] == "[" + HoursPart(x) && s[d..e] == FractionPart(x)
  {
    var x := PartsOfFit(s, h, m, c, f);
    hide HoursPart, FractionPart, AllDigits;
    HoursOfFit(s, h, x);
    FractionOfFit(s, (if h == 0 then 1 else h + 2) + m + 1 + c, f, x);
  }

  lemma MiddleOfFit(s: string, h: nat, m: nat, c: nat, f: nat)
    requires Fits(s, h, m, c, f)
    ensures var x, a := PartsOfFit(s, h, m, c, f), if h == 0 then 1 else h + 2;
            var d := a + m + 1 + c;
            var e := if f == 0 then d else d + f + 1;
            && e < |s| && s[e] == ']' && |x.minutes| == m
            && s[a..a + m] == x.minutes && s[a + m] == ':' && s[a + m + 1..d] == x.seconds
  {
    hide AllDigits;
  }

  lemma FitIsWritten(s: string, h: nat, m: nat, c: nat, f: nat)
    requires Fits(s, h, m, c, f)
    ensures Written(PartsOfFit(s, h, m, c, f)) <= s
  {
    hide HoursPart, FractionPart, Written, Fits, PartsOfFit;
    var x := PartsOfFit(s, h, m, c, f);
    var a := if h == 0 then 1 else h + 2;
    var d := a + m + 1 + c;
    EndsOfFit(s, h, m, c, f);
    MiddleOfFit(s, h, m, c, f);
    WrittenOfFit(s, x, a, a + m + 1, d, if f == 0 then d else d + f + 1);
  }

  /** The parts of a text that the pattern fits, as they are written. */
  lemma FormOfFit(s: string, h: nat, m: nat, c: nat, f: nat) returns (x: Form)
    requires Fits(s, h, m, c, f) && h <= 2 && 1 <= m <= 2 && 1 <= c <= 2 && f <= 3
    ensures LooseForm(x) && Written(x) <= s
    ensures |x.hours| == h && |x.minutes| == m && |x.seconds| == c && |x.fraction| == f
  {
    x := PartsOfFit(s, h, m, c, f);
    hide LooseForm, Written;
    DigitsOfFit(s, h, m, c, f);
    FitIsWritten(s, h, m, c, f);
  }

  /** What is matched is a written stamp, and it is matched with its own length and time. */
  lemma MatchIsWritten(s: string)
    ensures MatchTime(s).Some? ==>
              exists x: Form :: LooseForm(x) && Written(x) <= s && MatchTime(s).value == Match(|Written(x)|, TimeOf(x), Legible(x))
  {
    if MatchTime(s).Some? {
      StartsMatching(s);
      hide MatchTime, Fits, MatchOf, MatchHours, LooseForm, Written, TimeOf, Legible;
      var h, m, c, f := HoursFit(s, 2);
      var x := FormOfFit(s, h, m, c, f);
      var rest := s[|Written(x)|..];
      assert s == Written(x) + rest;
      var a, b, d, e := PartsOfWritten(x, rest);
      ItsOwnTime(s, x, a, b, d, e);
    }
  }

  lemma StartsMatching(s: string)
    ensures MatchTime(s) == MatchHours(s, 2)
  {
  }

  /** A stamp stands at the start of a text if and only if one is written there, in any form. */
  lemma MatchIff(s: string)
    ensures MatchTime(s).Some? <==> exists x: Form :: LooseForm(x) && Written(x) <= s
  {
    MatchIsWritten(s);
    hide MatchTime, LooseForm, Written;
    forall x: Form | LooseForm(x) && Written(x) <= s ensures MatchTime(s).Some? {
      assert s == Written(x) + s[|Written(x)|..];
      StampIsMatched(x, s[|Written(x)|..]);
    }
  }

  predicate WithinStamp(stamps: seq<Stamp>, k: nat) {
    exists i :: 0 <= i < |stamps| && stamps[i].from <= k < stamps[i].end
  }

  lemma FirstOfStamps(line: string, pos: nat)
    requires pos < |line|
    ensures var m := MatchTime(line[pos..]);
            Stamps(line, pos) ==
              if m.None? then Stamps(line, pos + 1)
              else [Stamp(pos, pos + m.value.length, m.value.millis, m.value.readable)] + Stamps(line, pos + m.value.length)
  {
    hide MatchTime;
  }

  predicate MatchedAt(line: string, stamp: Stamp) {
    && stamp.from < stamp.end <= |line|
    && MatchTime(line[stamp.from..]) == Some(Match(stamp.end - stamp.from, stamp.millis, stamp.readable))
  }

  /** Where the search goes on after a position. */
  function NextPos(line: string, pos: nat): (next: nat)
    requires pos < |line|
    ensures pos < next <= |line|
  {
    var m := MatchTime(line[pos..]);
    if m.Some? then pos + m.value.length else pos + 1
  }

  lemma FirstOrRest(first: Stamp, rest: seq<Stamp>, stamp: Stamp)
    requires stamp in [first] + rest
    ensures stamp == first || stamp in rest
  {
  }

  lemma FirstIsMatched(line: string, pos: nat, stamp: Stamp)
    requires pos < |line| && stamp in Stamps(line, pos)
    ensures stamp in Stamps(line, NextPos(line, pos)) || MatchedAt(line, stamp)
  {
    hide MatchTime, Stamps;
    FirstOfStamps(line, pos);
    var m := MatchTime(line[pos..]);
    if m.Some? {
      var next := pos + m.value.length;
      FirstOrRest(Stamp(pos, next, m.value.millis, m.value.readable), Stamps(line, next), stamp);
    }
  }

  lemma {:induction false} StampsAreMatched(line: string, pos: nat, stamp: Stamp)
    requires stamp in Stamps(line, pos)
    ensures MatchedAt(line, stamp)
    decreases |line| - pos
  {
    if pos < |line| {
      hide MatchedAt, NextPos, Stamps;
      FirstIsMatched(line, pos, stamp);
      if stamp in Stamps(line, NextPos(line, pos)) {
        StampsAreMatched(line, NextPos(line, pos), stamp);
      }
    }
  }

  lemma OutsideOfMore(first: Stamp, rest: seq<Stamp>, k: nat)
    requires !WithinStamp([first] + rest, k)
    ensures !WithinStamp(rest, k) && !(first.from <= k < first.end)
  {
    assert ([first] + rest)[0] == first;
    assert forall i :: 0 <= i < |rest| ==> rest[i] == ([first] + rest)[i + 1];
  }

  lemma OutsideOfFirst(line: string, pos: nat, k: nat)
    requires pos <= k < |line| && !WithinStamp(Stamps(line, pos), k)
    ensures !WithinStamp(Stamps(line, NextPos(line, pos)), k)
    ensures k < NextPos(line, pos) ==> k == pos && MatchTime(line[k..]).None?
  {
    hide MatchTime, WithinStamp;
    FirstOfStamps(line, pos);
    hide Stamps;
    var m := MatchTime(line[pos..]);
    if m.Some? {
      var next := pos + m.value.length;
      OutsideOfMore(Stamp(pos, next, m.value.millis, m.value.readable), Stamps(line, next), k);
    }
  }

  lemma {:induction false} NothingElseMatches(line: string, pos: nat, k: nat)
    requires pos <= k < |line| && !WithinStamp(Stamps(line, pos), k)
    ensures MatchTime(line[k..]).None?
    decreases |line| - pos
  {
    hide MatchTime, Stamps, WithinStamp, NextPos;
    OutsideOfFirst(line, pos, k);
    if k >= NextPos(line, pos) {
      NothingElseMatches(line, NextPos(line, pos), k);
    }
  }

  /** Every stamp found is matched where it stands, and outside of those found nothing is matched. */
  lemma StampsAreLeftmost(line: string, pos: nat)
    ensures forall stamp :: stamp in Stamps(line, pos) ==> MatchedAt(line, stamp)
    ensures forall k :: pos <= k < |line| && !WithinStamp(Stamps(line, pos), k) ==> MatchTime(line[k..]).None?
  {
    hide Stamps, WithinStamp, MatchTime, MatchedAt;
    forall stamp | stamp in Stamps(line, pos) ensures MatchedAt(line, stamp) {
      StampsAreMatched(line, pos, stamp);
    }
    forall k | pos <= k < |line| && !WithinStamp(Stamps(line, pos), k) ensures MatchTime(line[k..]).None? {
      NothingElseMatches(line, pos, k);
    }
  }

  lemma TrimmedAway(s: string)
    ensures Trim(s) == "" <==> Blank(s)
  {
    TrimSplits(s);
    hide Trim;
    var before, after :| s == before + Trim(s) + after && Surrounds(before, Trim(s), after);
    if Trim(s) == "" {
      assert s == before + after;
    } else {
      assert s[|before|] == Trim(s)[0];
    }
  }

  /** The stamps before any text: between them is white space only, and something else behind the last but for the end. */
  lemma {:induction false} LeadingIs(line: string, stamps: seq<Stamp>, n: nat)
    requires 1 <= n <= |stamps|
    requires forall i :: 0 <= i < |stamps| ==> stamps[i].from < stamps[i].end <= |line|
    requires forall i, j :: 0 <= i < j < |stamps| ==> stamps[i].end <= stamps[j].from
    ensures var k := Leading(line, stamps, n);
            && (forall i :: n <= i < k ==> Blank(line[stamps[i - 1].end..stamps[i].from]))
            && (k < |stamps| ==> !Blank(line[stamps[k - 1].end..stamps[k].from]))
    decreases |stamps| - n
  {
    hide Trim, Blank;
    if n < |stamps| {
      TrimmedAway(line[stamps[n - 1].end..stamps[n].from]);
      if Blank(line[stamps[n - 1].end..stamps[n].from]) {
        LeadingIs(line, stamps, n + 1);
      }
    }
  }

  // ----- Tags -----

  function Opening(t: Tag): string {
    match t
    case Artist => "[ar:"
    case Title => "[ti:"
    case Offset => "[offset:"
    case Language => "[lang:"
  }

  /** A tag with something in it. */
  predicate TagStands(text: string, t: Tag, value: string) {
    value != "" && ']' !in value && Opening(t) + value + "]" <= text
  }

  lemma {:induction false} BracketEnds(s: string)
    ensures UntilBracket(s).None? <==> ']' !in s
    ensures UntilBracket(s).Some? ==> ']' !in UntilBracket(s).value && UntilBracket(s).value + "]" <= s
  {
    if s != "" && s[0] != ']' {
      BracketEnds(s[1..]);
      if UntilBracket(s).Some? {
        assert s == [s[0]] + s[1..];
        assert UntilBracket(s).value + "]" == [s[0]] + (UntilBracket(s[1..]).value + "]");
      }
    }
  }

  lemma {:induction false} FirstBracket(value: string, rest: string)
    requires ']' !in value
    ensures UntilBracket(value + "]" + rest) == Some(value)
  {
    var s := value + "]" + rest;
    if value != "" {
      assert s[0] == value[0] && s[1..] == value[1..] + "]" + rest;
      FirstBracket(value[1..], rest);
      assert value == [value[0]] + value[1..];
    }
  }

  lemma TagIsAt(text: string, t: Tag, value: string)
    requires TagStands(text, t, value)
    ensures TagAt(text, t) == Some(value)
  {
    var prefix := Opening(t);
    assert prefix == "[" + TagName(t) + ":";
    var whole := prefix + value + "]";
    var rest := text[|whole|..];
    assert text == prefix + (value + "]" + rest);
    FirstBracket(value, rest);
    hide UntilBracket;
  }

  lemma PrefixOfRest(text: string, prefix: string, more: string)
    requires prefix <= text && more <= text[|prefix|..]
    ensures prefix + more <= text
  {
    assert text == prefix + text[|prefix|..];
  }

  lemma OpeningIs(t: Tag)
    ensures Opening(t) == "[" + TagName(t) + ":"
  {
  }

  lemma TagStandsThere(text: string, t: Tag, value: string)
    requires TagAt(text, t) == Some(value)
    ensures TagStands(text, t, value)
  {
    OpeningIs(t);
    hide Opening, TagName, UntilBracket;
    var prefix := Opening(t);
    BracketEnds(text[|prefix|..]);
    PrefixOfRest(text, prefix, value + "]");
    assert prefix + (value + "]") == prefix + value + "]";
  }

  lemma TagAtIff(text: string, t: Tag, value: string)
    ensures TagAt(text, t) == Some(value) <==> TagStands(text, t, value)
  {
    hide TagAt, TagStands;
    if TagStands(text, t, value) {
      TagIsAt(text, t, value);
    } else if TagAt(text, t) == Some(value) {
      TagStandsThere(text, t, value);
    }
  }

  ghost predicate AnyTagStands(text: string) {
    exists t, value :: TagStands(text, t, value)
  }

  /** The tag found is the leftmost of the line. */
  lemma {:induction false} FindTagIs(line: string)
    ensures FindTag(line).None? <==> forall i :: 0 <= i < |line| ==> !AnyTagStands(line[i..])
    ensures FindTag(line).Some? ==>
              exists i :: 0 <= i < |line| && TagStands(line[i..], FindTag(line).value.0, FindTag(line).value.1)
                          && forall j :: 0 <= j < i ==> !AnyTagStands(line[j..])
  {
    if line != "" {
      assert line[0..] == line;
      hide TagAt, TagStands, AnyTagStands;
      forall t: Tag, value ensures TagAt(line, t) == Some(value) <==> TagStands(line, t, value) {
        TagAtIff(line, t, value);
      }
      var here := TagAt(line, Artist).Some? || TagAt(line, Title).Some? || TagAt(line, Offset).Some? || TagAt(line, Language).Some?;
      TagHere(line, here);
      if !here {
        FindTagIs(line[1..]);
        assert forall i :: 0 < i < |line| ==> line[i..] == line[1..][i - 1..];
        assert forall i :: 0 <= i < |line| - 1 ==> line[1..][i..] == line[i + 1..];
      }
    }
  }

  lemma TagHere(line: string, here: bool)
    requires here <==> TagAt(line, Artist).Some? || TagAt(line, Title).Some? || TagAt(line, Offset).Some? || TagAt(line, Language).Some?
    ensures here <==> AnyTagStands(line)
  {
    hide TagAt, TagStands;
    forall t: Tag, value ensures TagAt(line, t) == Some(value) <==> TagStands(line, t, value) {
      TagAtIff(line, t, value);
    }
    if here {
      var t := if TagAt(line, Artist).Some? then Artist else if TagAt(line, Title).Some? then Title
               else if TagAt(line, Offset).Some? then Offset else Language;
      assert TagStands(line, t, TagAt(line, t).value);
    }
    if t, value :| TagStands(line, t, value) {
      assert TagAt(line, t) == Some(value) && (t == Artist || t == Title || t == Offset || t == Language);
    }
  }

  // ----- Whether lyrics are synced -----

  const SPACES_IN_PATTERN := {'\t', '\n', '\U{0C}', '\r', ' '}

  /** A line starts at i, and from there on there is white space only up to a stamp at j. */
  predicate StampOpens(text: string, i: nat, j: nat) {
    && i <= j <= |text| && (i == 0 || text[i - 1] == '\n')
    && (forall k :: i <= k < j ==> text[k] in SPACES_IN_PATTERN)
    && MatchTime(text[j..]).Some?
  }

  predicate SpaceUpTo(text: string, j: nat) {
    j <= |text| && (forall k :: 0 <= k < j ==> text[k] in SPACES_IN_PATTERN) && MatchTime(text[j..]).Some?
  }

  lemma OneSpaceMore(text: string, j: nat)
    requires text != ""
    ensures SpaceUpTo(text, j + 1) <==> SpaceInPattern(text[0]) && SpaceUpTo(text[1..], j)
  {
    hide MatchTime;
    var rest := text[1..];
    assert forall k :: 0 <= k < |rest| ==> rest[k] == text[k + 1];
    if j <= |rest| {
      assert rest[j..] == text[j + 1..];
    }
    if SpaceUpTo(text, j + 1) {
      assert forall k :: 0 <= k < j ==> rest[k] == text[k + 1] && text[k + 1] in SPACES_IN_PATTERN;
    }
    if SpaceInPattern(text[0]) && SpaceUpTo(rest, j) {
      assert forall k :: 0 <= k < j + 1 ==> text[k] == if k == 0 then text[0] else rest[k - 1];
    }
  }

  lemma {:induction false} SpaceThenStamp(text: string)
    ensures StampAfterSpace(text) <==> exists j: nat :: SpaceUpTo(text, j)
  {
    assert text[0..] == text;
    assert SpaceUpTo(text, 0) <==> MatchTime(text).Some?;
    if text != "" {
      hide MatchTime, SpaceUpTo, SpaceInPattern;
      SpaceThenStamp(text[1..]);
      if j: nat :| SpaceUpTo(text, j) && j > 0 {
        OneSpaceMore(text, j - 1);
      }
      if j: nat :| SpaceUpTo(text[1..], j) {
        OneSpaceMore(text, j);
      }
    } else {
      assert forall j: nat :: SpaceUpTo(text, j) ==> j == 0;
    }
  }

  lemma SyncedAt(text: string, i: nat)
    requires i <= |text| && (i == 0 || text[i - 1] == '\n')
    ensures StampAfterSpace(text[i..]) <==> exists j: nat :: StampOpens(text, i, j)
  {
    hide MatchTime, StampAfterSpace;
    SpaceThenStamp(text[i..]);
    forall j: nat ensures SpaceUpTo(text[i..], j) <==> StampOpens(text, i, i + j) {
      if i + j <= |text| {
        assert text[i..][j..] == text[i + j..];
        assert forall k :: 0 <= k < j ==> text[i..][k] == text[i + k];
        assert forall k :: i <= k < i + j ==> text[k] == text[i..][k - i];
      }
    }
    if j: nat :| StampOpens(text, i, j) {
      assert SpaceUpTo(text[i..], j - i);
    }
    if j: nat :| SpaceUpTo(text[i..], j) {
      assert StampOpens(text, i, i + j);
    }
  }

  /** Lyrics are synced if and only if some line starts with a stamp, behind white space or none. */
  lemma SyncedIff(text: string)
    ensures IsSynced(text) <==> exists i: nat, j: nat :: StampOpens(text, i, j)
  {
    hide StampAfterSpace, StampOpens;
    assert text[0..] == text;
    SyncedAt(text, 0);
    forall i | 0 <= i < |text| && text[i] == '\n'
      ensures StampAfterSpace(text[i + 1..]) <==> OpensSomewhere(text, i + 1)
    {
      SyncedAt(text, i + 1);
    }
    if i: nat, j: nat :| StampOpens(text, i, j) {
      OpensAtLine(text, i, j);
      if i > 0 {
        assert text[i - 1] == '\n' && text[i - 1 + 1..] == text[i..];
      }
    }
  }

  ghost predicate OpensSomewhere(text: string, i: nat) {
    exists j: nat :: StampOpens(text, i, j)
  }

  lemma OpensAtLine(text: string, i: nat, j: nat)
    requires StampOpens(text, i, j)
    ensures i <= |text| && (i == 0 || text[i - 1] == '\n')
  {
  }
}

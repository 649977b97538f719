/**
 ToLyrics as the loop it is, and what a caller gets from it.
 */
module LyricsService {
  import opened Options
  import opened Text
  import opened LyricsModel
  import opened LyricsStamps
  import opened LyricsReference
  import opened LyricsRoundTrip

  predicate AllTimed(lines: seq<Line>) {
    forall i :: 0 <= i < |lines| ==> lines[i].start.Some?
  }

  predicate SortedByStart(lines: seq<Line>) {
    AllTimed(lines) && forall i, j :: 0 <= i < j < |lines| ==> lines[i].start.value <= lines[j].start.value
  }

  /** Nothing when a stamp cannot be read; the lines sorted if some line had several times, and otherwise as they came. */
  ghost predicate IsResult(lang: string, text: string, r: Option<Lyrics>) {
    && (r.None? <==> Parsed(lang, text).failed)
    && (r.Some? ==> IsLyrics(lang, text, r.value))
  }

  ghost predicate IsLyrics(lang: string, text: string, r: Lyrics) {
    var p := Parsed(lang, text);
    && r.artist == p.artist && r.title == p.title && r.lang == p.lang && r.offset == p.offset && r.synced == IsSynced(text)
    && if p.repeated then SortedByStart(r.lines) && multiset(r.lines) == multiset(p.lines) else r.lines == p.lines
  }

  // ----- Every line of synced lyrics has a start -----

  lemma SyncedStepTimed(p: Parser, line: string)
    requires AllTimed(p.lines)
    ensures AllTimed(SyncedStep(p, line).lines)
  {
    hide Stamps, FindTag, Leading, Trim, TimesOf;
  }

  lemma {:induction false} SyncedStepsTimed(p: Parser, lines: seq<string>)
    requires AllTimed(p.lines)
    ensures AllTimed(Steps(p, true, lines).lines)
  {
    if lines != [] {
      SyncedStepsTimed(p, lines[..|lines| - 1]);
      var sofar := Steps(p, true, lines[..|lines| - 1]);
      SyncedStepTimed(sofar, Trim(lines[|lines| - 1]));
      hide SyncedStep, Trim, AllTimed;
    }
  }

  lemma {:induction false} UnsyncedStepsPlain(p: Parser, lines: seq<string>)
    requires !p.valid && !p.repeated && forall i :: 0 <= i < |p.lines| ==> p.lines[i].start.None?
    ensures var p' := Steps(p, false, lines);
            !p'.valid && !p'.repeated && forall i :: 0 <= i < |p'.lines| ==> p'.lines[i].start.None?
  {
    hide Trim;
    if lines != [] {
      UnsyncedStepsPlain(p, lines[..|lines| - 1]);
    }
  }

  /** Synced lyrics have a start on every line, so that they can be sorted; others have none, and are not sorted. */
  lemma LinesAreTimedIffSynced(lang: string, text: string)
    ensures var p := Parsed(lang, text);
            && (IsSynced(text) ==> AllTimed(p.lines))
            && (!IsSynced(text) ==> !p.repeated && forall i :: 0 <= i < |p.lines| ==> p.lines[i].start.None?)
  {
    if IsSynced(text) {
      SyncedStepsTimed(Start(lang), SplitLines(text));
    } else {
      UnsyncedStepsPlain(Start(lang), SplitLines(text));
    }
    hide Steps, IsSynced, SplitLines, Trim;
  }

  // ----- What the lyrics are -----

  /** The entries of all stamped lines: sorted if some line has several stamps, and otherwise in order. */
  ghost predicate GivesEntries(lines: seq<string>, given: seq<Line>, at: seq<nat>) {
    && StampedAt(at, lines)
    && (if exists i :: 0 <= i < |lines| && SeveralStamps(lines[i])
        then SortedByStart(given) && multiset(given) == multiset(AllEntries(lines, at, |at|))
        else given == AllEntries(lines, at, |at|))
  }

  /** Synced lyrics have the entries of their stamped lines and the fields of their tags; others have their lines. */
  ghost predicate IsReading(lang: string, text: string, r: Lyrics) {
    var lines := SplitLines(text);
    && r.synced == IsSynced(text)
    && (r.synced ==>
          && FieldIs(lines, Artist, r.artist, "") && FieldIs(lines, Title, r.title, "") && FieldIs(lines, Language, r.lang, lang)
          && OffsetIs(lines, r.offset)
          && exists at: seq<nat> :: GivesEntries(lines, r.lines, at))
    && (!r.synced ==> r == Lyrics("", "", lang, PlainLines(lines), None, false))
  }

  lemma EntriesAreGiven(lang: string, text: string, r: Lyrics)
    requires IsSynced(text) && !Parsed(lang, text).failed && IsLyrics(lang, text, r)
    ensures exists at: seq<nat> :: GivesEntries(SplitLines(text), r.lines, at)
  {
    SyncedLines(lang, text);
    ParsedFields(lang, text);
    hide Parsed, IsSynced, SplitLines, StampedAt, AllEntries, SeveralStamps, SortedByStart, FieldIs, OffsetIs;
    var at: seq<nat> :| StampedAt(at, SplitLines(text)) && Parsed(lang, text).lines == AllEntries(SplitLines(text), at, |at|);
    assert GivesEntries(SplitLines(text), r.lines, at);
  }

  /** What a caller gets, in terms of the lines of the text. */
  lemma ResultIsReading(lang: string, text: string, r: Lyrics)
    requires IsResult(lang, text, Some(r))
    ensures IsReading(lang, text, r)
  {
    ParsedFields(lang, text);
    if IsSynced(text) {
      EntriesAreGiven(lang, text, r);
    }
    hide Parsed, IsSynced, SplitLines, FieldIs, OffsetIs, PlainLines, GivesEntries, SortedByStart;
  }

  // ----- Round trip -----

  function Timed(pairs: seq<(Form, string)>): seq<Line> {
    seq(|pairs|, i requires 0 <= i < |pairs| => Line(Some(TimeOf(pairs[i].0)), pairs[i].1))
  }

  function Singles(pairs: seq<(Form, string)>): seq<Item> {
    seq(|pairs|, i requires 0 <= i < |pairs| => Item([pairs[i].0], pairs[i].1, []))
  }

  predicate Writable(pairs: seq<(Form, string)>) {
    forall i :: 0 <= i < |pairs| ==> ValidForm(pairs[i].0) && PlainText(pairs[i].1) && CanFollow([pairs[i].0], pairs[i].1)
  }

  lemma SingleEntry(stamp: Form, text: string)
    requires PlainText(text)
    ensures Entries(Times([stamp]), Trim(FullText(Item([stamp], text, [])))) == [Line(Some(TimeOf(stamp)), text)]
  {
    TrimKeeps(text);
    hide TimeOf, Trim;
    assert Times([stamp]) == [TimeOf(stamp)];
  }

  lemma LastOfSingles(pairs: seq<(Form, string)>)
    requires pairs != []
    ensures var front, last := pairs[..|pairs| - 1], pairs[|pairs| - 1];
            Singles(pairs) == Singles(front) + [Item([last.0], last.1, [])] && Timed(pairs) == Timed(front) + [Line(Some(TimeOf(last.0)), last.1)]
  {
    hide TimeOf;
  }

  lemma LastEntries(items: seq<Item>, it: Item)
    ensures EntriesOf(items + [it]) == EntriesOf(items) + Entries(Times(it.stamps), Trim(FullText(it)))
  {
    hide Times, Trim, FullText, Entries;
    assert (items + [it])[..|items|] == items;
  }

  lemma {:induction false} EntriesOfSingles(pairs: seq<(Form, string)>)
    requires Writable(pairs)
    ensures EntriesOf(Singles(pairs)) == Timed(pairs)
  {
    if pairs != [] {
      hide EntriesOf, Singles, Timed, PlainText, ValidForm, CanFollow;
      var front, last := pairs[..|pairs| - 1], pairs[|pairs| - 1];
      EntriesOfSingles(front);
      LastOfSingles(pairs);
      SingleEntry(last.0, last.1);
      LastEntries(Singles(front), Item([last.0], last.1, []));
    }
  }

  lemma SinglesValid(pairs: seq<(Form, string)>)
    requires Writable(pairs)
    ensures forall it :: it in Singles(pairs) ==> ValidItem(it)
  {
  }

  /** One line for each time and text. */
  function WriteDown(pairs: seq<(Form, string)>): string
    requires Writable(pairs)
  {
    SinglesValid(pairs);
    JoinLines(Rendered(Singles(pairs)))
  }

  /** Lines written with one stamp each come back as they were, in the order they were written in. */
  lemma RoundTrip(lang: string, pairs: seq<(Form, string)>, r: Option<Lyrics>)
    requires Writable(pairs) && IsResult(lang, WriteDown(pairs), r)
    ensures r.Some? && r.value.lines == Timed(pairs) && r.value.lang == lang && (r.value.synced <==> pairs != [])
  {
    SinglesValid(pairs);
    ParseRendered(lang, Singles(pairs));
    EntriesOfSingles(pairs);
    hide Parsed, Rendered, JoinLines, IsSynced, ValidItem, EntriesOf;
  }

  /** Lines with several stamps each come back once per stamp, sorted by time. */
  lemma RoundTripRepeated(lang: string, items: seq<Item>, r: Option<Lyrics>)
    requires forall it :: it in items ==> ValidItem(it)
    requires IsResult(lang, JoinLines(Rendered(items)), r)
    ensures r.Some? && multiset(r.value.lines) == multiset(EntriesOf(items)) && AllTimed(r.value.lines)
    ensures SomeRepeated(items) ==> SortedByStart(r.value.lines)
  {
    ParseRendered(lang, items);
    LinesAreTimedIffSynced(lang, JoinLines(Rendered(items)));
    hide Parsed, Rendered, JoinLines, IsSynced, ValidItem, EntriesOf;
  }

  // ----- Stamps that cannot be read -----

  /** A line that begins with stamps, one of which cannot be read. */
  predicate Unreadable(raw: string) {
    var line := Trim(raw);
    && FindTag(line).None?
    && var stamps := Stamps(line, 0);
       stamps != [] && stamps[0].from == 0 && exists i :: 0 <= i < Leading(line, stamps, 1) && !stamps[i].readable
  }

  lemma FailsOnStamps(p: Parser, line: string)
    requires !p.failed
    ensures SyncedStep(p, line).failed <==>
              FindTag(line).None? &&
              var stamps := Stamps(line, 0);
              stamps != [] && stamps[0].from == 0 && !AllReadable(stamps, Leading(line, stamps, 1))
  {
    hide Stamps, FindTag, Trim, Leading, TimesOf, AllReadable, ParseInt64;
  }

  lemma FailsOnUnreadable(p: Parser, synced: bool, raw: string)
    ensures Step(p, synced, raw).failed <==> p.failed || (synced && Unreadable(raw))
  {
    assert Trim(raw) == "" ==> Stamps(Trim(raw), 0) == [];
    hide Stamps, FindTag, Trim, Leading, AllReadable, SyncedStep;
    if !p.failed {
      FailsOnStamps(p, Trim(raw));
    }
  }

  lemma {:induction false} FailsInSteps(p: Parser, synced: bool, lines: seq<string>)
    ensures Steps(p, synced, lines).failed <==>
              p.failed || (synced && exists i :: 0 <= i < |lines| && Unreadable(lines[i]))
  {
    hide Step, Unreadable;
    if lines != [] {
      var front, last := lines[..|lines| - 1], lines[|lines| - 1];
      FailsInSteps(p, synced, front);
      FailsOnUnreadable(Steps(p, synced, front), synced, last);
      assert forall i :: 0 <= i < |front| ==> front[i] == lines[i];
    }
  }

  /** Lyrics are refused if and only if they are synced and some line begins with a stamp that cannot be read. */
  lemma FailsIff(lang: string, text: string, r: Option<Lyrics>)
    requires IsResult(lang, text, r)
    ensures r.None? <==>
              IsSynced(text) && exists i :: 0 <= i < |SplitLines(text)| && Unreadable(SplitLines(text)[i])
  {
    hide Parsed, Start, IsSynced, SplitLines, Unreadable, IsLyrics;
    FailsInSteps(Start(lang), IsSynced(text), SplitLines(text));
    ParsedFails(lang, text);
  }

  lemma ParsedFails(lang: string, text: string)
    ensures Parsed(lang, text).failed == Steps(Start(lang), IsSynced(text), SplitLines(text)).failed && !Start(lang).failed
  {
    hide Steps, IsSynced, SplitLines, Trim;
  }

  const ACCENTED := "[1:02\U{E9}3]"

  /** One minute, two digits of seconds and one of the fraction, which the accented letter hides. */
  lemma AccentedMatches()
    ensures var m := MatchTime(ACCENTED); m.Some? && m.value.length == 8 && !m.value.readable
  {
    var x := Form("", "1", "02", '\U{E9}', "3");
    assert Written(x) + "" == ACCENTED;
    hide MatchTime;
    StampMatches(x, "");
  }

  lemma AccentedStamps()
    ensures var stamps := Stamps(ACCENTED, 0); |stamps| == 1 && stamps[0].from == 0 && !stamps[0].readable
  {
    AccentedMatches();
    hide MatchTime;
    assert ACCENTED[0..] == ACCENTED && |ACCENTED| == 8 && Stamps(ACCENTED, 8) == [];
  }

  lemma AccentedHasNoTag()
    ensures FindTag(ACCENTED).None? && Trim(ACCENTED) == ACCENTED && '\n' !in ACCENTED
  {
    assert BracketsOpenStamps(ACCENTED);
    NoTag(ACCENTED);
    TrimKeeps(ACCENTED);
  }

  /** With an accented letter instead of the dot, a stamp is matched, but cannot be read. */
  lemma AccentedFails(lang: string, r: Option<Lyrics>)
    requires IsResult(lang, ACCENTED, r)
    ensures r.None?
  {
    AccentedMatches();
    AccentedStamps();
    AccentedHasNoTag();
    hide MatchTime, Stamps, FindTag, Trim, IsResult;
    assert Unreadable(ACCENTED);
    SplitOne(ACCENTED);
    assert SplitLines(ACCENTED)[0] == ACCENTED;
    FailsIff(lang, ACCENTED, r);
  }

  // ----- The method -----

  /** Some sorted arrangement of the lines; lines with the same start may change places. */
  method SortByStart(lines: seq<Line>) returns (sorted: seq<Line>)
    requires AllTimed(lines)
    ensures SortedByStart(sorted) && multiset(sorted) == multiset(lines)
  {
    sorted := [];
    for i := 0 to |lines|
      invariant SortedByStart(sorted) && multiset(sorted) == multiset(lines[..i])
    {
      hide SortedByStart;
      assert lines[i].start.Some?;
      sorted := Insert(sorted, lines[i]);
      assert lines[..i + 1] == lines[..i] + [lines[i]];
    }
    assert lines[..|lines|] == lines;
  }

  method Insert(sorted: seq<Line>, line: Line) returns (more: seq<Line>)
    requires SortedByStart(sorted) && line.start.Some?
    ensures SortedByStart(more) && multiset(more) == multiset(sorted) + multiset{line}
  {
    var k := |sorted|;
    while k > 0 && sorted[k - 1].start.value > line.start.value
      invariant 0 <= k <= |sorted|
      invariant forall j :: k <= j < |sorted| ==> sorted[j].start.value > line.start.value
    {
      k := k - 1;
    }
    InsertSorted(sorted, k, line);
    more := sorted[..k] + [line] + sorted[k..];
  }

  lemma InsertedPair(sorted: seq<Line>, k: nat, line: Line, i: nat, j: nat)
    requires SortedByStart(sorted) && k <= |sorted| && line.start.Some? && i < j <= |sorted|
    requires forall j :: k <= j < |sorted| ==> sorted[j].start.value > line.start.value
    requires forall j :: 0 <= j < k ==> sorted[j].start.value <= line.start.value
    ensures var r := sorted[..k] + [line] + sorted[k..];
            r[i].start.Some? && r[j].start.Some? && r[i].start.value <= r[j].start.value
  {
    var r := sorted[..k] + [line] + sorted[k..];
    assert r[i] == if i < k then sorted[i] else if i == k then line else sorted[i - 1];
    assert r[j] == if j < k then sorted[j] else if j == k then line else sorted[j - 1];
  }

  lemma InsertedOne(sorted: seq<Line>, k: nat, line: Line)
    requires k <= |sorted|
    ensures multiset(sorted[..k] + [line] + sorted[k..]) == multiset(sorted) + multiset{line}
  {
    assert sorted[..k] + sorted[k..] == sorted;
  }

  lemma InsertSorted(sorted: seq<Line>, k: nat, line: Line)
    requires SortedByStart(sorted) && k <= |sorted| && line.start.Some?
    requires forall j :: k <= j < |sorted| ==> sorted[j].start.value > line.start.value
    requires k > 0 ==> sorted[k - 1].start.value <= line.start.value
    ensures SortedByStart(sorted[..k] + [line] + sorted[k..])
    ensures multiset(sorted[..k] + [line] + sorted[k..]) == multiset(sorted) + multiset{line}
  {
    InsertedOne(sorted, k, line);
    forall j | 0 <= j < k ensures sorted[j].start.value <= line.start.value {
      assert sorted[j].start.value <= sorted[k - 1].start.value;
    }
    var r := sorted[..k] + [line] + sorted[k..];
    forall i, j | 0 <= i < j < |r| ensures r[i].start.Some? && r[j].start.Some? && r[i].start.value <= r[j].start.value {
      InsertedPair(sorted, k, line, i, j);
    }
    forall i | 0 <= i < |r| ensures r[i].start.Some? {
      assert r[i] == if i < k then sorted[i] else if i == k then line else sorted[i - 1];
    }
  }

  /** The entries of the line in hand, one by one. */
  method WriteOut(lines: seq<Line>, times: seq<int>, prior: string) returns (more: seq<Line>)
    ensures more == lines + Entries(times, Trim(prior))
  {
    more := lines;
    for idx := 0 to |times|
      invariant more == lines + Entries(times[..idx], Trim(prior))
    {
      assert Entries(times[..idx + 1], Trim(prior)) == Entries(times[..idx], Trim(prior)) + [Line(Some(times[idx]), Trim(prior))];
      more := more + [Line(Some(times[idx]), Trim(prior))];
    }
    assert times[..|times|] == times;
  }

  lemma LeadingNext(line: string, stamps: seq<Stamp>, n: nat)
    requires stamps == Stamps(line, 0) && 1 <= n < |stamps|
    ensures 0 <= stamps[n - 1].end <= stamps[n].from <= |line|
    ensures Leading(line, stamps, n) ==
              if Trim(line[stamps[n - 1].end..stamps[n].from]) != "" then n else Leading(line, stamps, n + 1)
  {
    hide Trim, Stamps;
  }

  lemma TimesNext(stamps: seq<Stamp>, n: nat)
    requires n < |stamps|
    ensures TimesOf(stamps, n + 1) == TimesOf(stamps, n) + [stamps[n].millis] && TimesOf(stamps, 0) == []
  {
  }

  /** The stamps before any text: their times, and where they end, unless one of them cannot be read. */
  method ReadStamps(line: string, stamps: seq<Stamp>) returns (times: seq<int>, end: nat, ok: bool)
    requires stamps == Stamps(line, 0) && stamps != []
    ensures ok == AllReadable(stamps, Leading(line, stamps, 1))
    ensures ok ==> var k := Leading(line, stamps, 1); times == TimesOf(stamps, k) && end == stamps[k - 1].end
  {
    hide Trim, Stamps, Leading, TimesOf;
    if !stamps[0].readable {
      return [], 0, false;
    }
    TimesNext(stamps, 0);
    times, end := [stamps[0].millis], stamps[0].end;
    var n := 1;
    while n < |stamps|
      invariant 1 <= n <= |stamps| && Leading(line, stamps, n) == Leading(line, stamps, 1)
      invariant times == TimesOf(stamps, n) && end == stamps[n - 1].end && AllReadable(stamps, n)
    {
      LeadingNext(line, stamps, n);
      TimesNext(stamps, n);
      var middle := Trim(line[end..stamps[n].from]);
      if middle != "" {
        return times, end, true;
      }
      if !stamps[n].readable {
        return [], 0, false;
      }
      times, end := times + [stamps[n].millis], stamps[n].end;
      n := n + 1;
    }
    AllAreLeading(line, stamps);
    ok := true;
  }

  lemma AllAreLeading(line: string, stamps: seq<Stamp>)
    requires stamps == Stamps(line, 0)
    ensures Leading(line, stamps, |stamps|) == |stamps|
  {
  }

  lemma {:induction false} FailureStays(p: Parser, synced: bool, lines: seq<string>, n: nat)
    requires n <= |lines| && Steps(p, synced, lines[..n]).failed
    ensures Steps(p, synced, lines).failed
  {
    hide Step, Unreadable;
    FailsInSteps(p, synced, lines);
    FailsInSteps(p, synced, lines[..n]);
    assert forall i :: 0 <= i < n ==> lines[..n][i] == lines[i];
  }

  lemma StepsNext(p: Parser, synced: bool, lines: seq<string>, i: nat)
    requires i < |lines|
    ensures Steps(p, synced, lines[..i + 1]) == Step(Steps(p, synced, lines[..i]), synced, lines[i])
    ensures Steps(p, synced, lines[..0]) == p
  {
    hide Step;
    assert lines[..i + 1][..i] == lines[..i];
  }

  /** What is left to do after the last line. */
  lemma LastLine(language: string, text: string, p: Parser)
    requires p == Steps(Start(language), IsSynced(text), SplitLines(text)) && !p.failed
    ensures Parsed(language, text) == if p.valid then p.(lines := p.lines + Entries(p.times, Trim(p.prior)), times := []) else p
  {
    hide Steps, IsSynced, SplitLines, Trim;
  }

  lemma SomeLine(text: string)
    ensures SplitLines(text) != []
  {
  }

  method ToLyrics(language: string, text: string) returns (r: Option<Lyrics>)
    ensures IsResult(language, text, r)
    ensures r.Some? ==> IsReading(language, text, r.value)
    ensures r.None? <==> IsSynced(text) && exists i :: 0 <= i < |SplitLines(text)| && Unreadable(SplitLines(text)[i])
  {
    hide IsReading, Unreadable;
    hide Stamps, FindTag, Trim, Leading, TimesOf, IsSynced, SplitLines, MatchTime, Steps, SyncedStep, Parsed;
    var lines, synced := SplitLines(text), IsSynced(text);
    var p := Start(language);
    SomeLine(text);
    StepsNext(p, synced, lines, 0);
    ParsedFails(language, text);
    for i := 0 to |lines|
      invariant p == Steps(Start(language), synced, lines[..i]) && !p.failed
    {
      StepsNext(Start(language), synced, lines, i);
      ghost var before := p;
      var line := Trim(lines[i]);
      if line == "" {
        if p.valid {
          p := p.(prior := p.prior + "\n");
        }
      } else if !synced {
        p := p.(lines := p.lines + [Line(None, line)]);
      } else {
        p := ReadLine(p, line);
      }
      assert p == Step(before, synced, lines[i]);
      if p.failed {
        FailureStays(Start(language), synced, lines, i + 1);
        FailsIff(language, text, None);
        return None;
      }
    }
    assert lines[..|lines|] == lines;
    var structured := p.lines;
    if p.valid {
      structured := WriteOut(p.lines, p.times, p.prior);
    }
    LastLine(language, text, p);
    LinesAreTimedIffSynced(language, text);
    if p.repeated {
      structured := SortByStart(structured);
    }
    r := Some(Lyrics(p.artist, p.title, p.lang, structured, p.offset, synced));
    FailsIff(language, text, r);
    ResultIsReading(language, text, r.value);
  }

  /** One line of synced lyrics that is not blank. */
  method ReadLine(p: Parser, line: string) returns (p': Parser)
    ensures p' == SyncedStep(p, line)
  {
    hide Stamps, FindTag, Trim, Leading, TimesOf, ParseInt64;
    var tag := FindTag(line);
    if tag.Some? {
      return Tagged(p, tag.value.0, tag.value.1);
    }
    var stamps := Stamps(line, 0);
    p' := p.(repeated := p.repeated || |stamps| > 1);
    if |stamps| == 0 || stamps[0].from != 0 {
      if p'.valid {
        p' := p'.(prior := p'.prior + "\n" + line);
      }
      return;
    }
    if p'.valid {
      var written := WriteOut(p'.lines, p'.times, p'.prior);
      p' := p'.(lines := written, times := []);
    }
    var times, end, ok := ReadStamps(line, stamps);
    if !ok {
      return p'.(failed := true);
    }
    p' := p'.(times := p'.times + times, prior := Trim(line[end..]), valid := true);
  }
}

/**
 Writing lyrics down line by line and parsing them gives the lyrics back.
 */
module LyricsRoundTrip {
  import opened Options
  import opened Text
  import opened LyricsModel
  import opened LyricsStamps

  // ----- Rendering -----

  /** A text, which may go on over further lines, and the stamps it is sung at, each in any form. */
  datatype Item = Item(stamps: seq<Form>, text: string, more: seq<string>)

  function Times(stamps: seq<Form>): seq<int> {
    seq(|stamps|, i requires 0 <= i < |stamps| => TimeOf(stamps[i]))
  }

  function WriteStamps(stamps: seq<Form>): string {
    if stamps == [] then "" else Written(stamps[0]) + WriteStamps(stamps[1..])
  }

  /** Text that is trimmed and has neither newlines nor opening brackets. */
  predicate PlainText(s: string) {
    Trimmed(s) && '\n' !in s && '[' !in s
  }

  /** What follows the stamps is not taken for a fraction of the last one. */
  predicate CanFollow(stamps: seq<Form>, text: string) {
    stamps != [] && stamps[|stamps| - 1].fraction == "" ==> !LooksLikeFraction(text)
  }

  predicate ValidItem(it: Item) {
    && it.stamps != [] && PlainText(it.text) && CanFollow(it.stamps, it.text)
    && (forall i :: 0 <= i < |it.stamps| ==> ValidForm(it.stamps[i]))
    && (forall i :: 0 <= i < |it.more| ==> it.more[i] != "" && PlainText(it.more[i]))
  }

  /** The text with its further lines, the first n of them. */
  function TextUpTo(it: Item, n: nat): string
    requires n <= |it.more|
  {
    if n == 0 then it.text else TextUpTo(it, n - 1) + "\n" + it.more[n - 1]
  }

  function FullText(it: Item): string {
    TextUpTo(it, |it.more|)
  }

  function Render(it: Item): string {
    WriteStamps(it.stamps) + it.text
  }

  // ----- One line -----

  function ExpectedStamps(from: nat, stamps: seq<Form>): (r: seq<Stamp>)
    ensures |r| == |stamps|
    decreases |stamps|
  {
    if stamps == [] then []
    else
      var end := from + |Written(stamps[0])|;
      [Stamp(from, end, TimeOf(stamps[0]), true)] + ExpectedStamps(end, stamps[1..])
  }

  lemma {:induction false} NoStamps(line: string, pos: nat)
    requires forall i :: pos <= i < |line| ==> line[i] != '['
    ensures Stamps(line, pos) == []
    decreases |line| - pos
  {
    if pos < |line| {
      assert line[pos..][0] == line[pos];
      NoStamps(line, pos + 1);
    }
  }

  lemma OneStamp(line: string, pos: nat, x: Form, rest: string)
    requires ValidForm(x) && (x.fraction != "" || !LooksLikeFraction(rest))
    requires pos < |line| && line[pos..] == Written(x) + rest
    ensures var end := pos + |Written(x)|;
            end <= |line| && Stamps(line, pos) == [Stamp(pos, end, TimeOf(x), true)] + Stamps(line, end)
  {
    hide Written, MatchTime, TimeOf, AnyForm, LooksLikeFraction;
    StampMatches(x, rest);
    StampsFrom(line, pos);
    hide Stamps;
  }

  lemma StampsFrom(line: string, pos: nat)
    requires pos < |line| && MatchTime(line[pos..]).Some?
    ensures var m := MatchTime(line[pos..]).value;
            Stamps(line, pos) == [Stamp(pos, pos + m.length, m.millis, m.readable)] + Stamps(line, pos + m.length)
  {
    hide MatchTime;
  }

  lemma Cut(a: string, b: string, c: string, d: string)
    ensures (a + (b + c) + d)[|a|..] == b + (c + d)
    ensures a + (b + c) + d == (a + b) + c + d
  {
  }

  lemma NotEmpty(x: Form)
    ensures |Written(x)| > 0 && Written(x)[0] == '['
  {
  }

  /** The rendered line, cut after its first stamp. */
  lemma CutStamp(before: string, stamps: seq<Form>, text: string)
    requires stamps != []
    ensures var line, first := before + WriteStamps(stamps) + text, Written(stamps[0]);
            && |before| < |line| && line[|before|..] == first + (WriteStamps(stamps[1..]) + text)
            && line == (before + first) + WriteStamps(stamps[1..]) + text && |before + first| == |before| + |first|
  {
    var first, rest := Written(stamps[0]), WriteStamps(stamps[1..]);
    assert WriteStamps(stamps) == first + rest;
    NotEmpty(stamps[0]);
    hide Written, WriteStamps;
    Cut(before, first, rest, text);
  }

  /** After a stamp comes another one, or the text. */
  lemma NextCanFollow(stamps: seq<Form>, text: string)
    requires stamps != [] && CanFollow(stamps, text)
    ensures stamps[0].fraction != "" || !LooksLikeFraction(WriteStamps(stamps[1..]) + text)
    ensures CanFollow(stamps[1..], text)
  {
    if |stamps| == 1 {
      assert WriteStamps(stamps[1..]) + text == text;
    } else {
      NotEmpty(stamps[1]);
      hide Written;
      assert (WriteStamps(stamps[1..]) + text)[0] == '[';
    }
  }

  lemma ExpectedCons(from: nat, stamps: seq<Form>)
    requires stamps != []
    ensures var end := from + |Written(stamps[0])|;
            ExpectedStamps(from, stamps) == [Stamp(from, end, TimeOf(stamps[0]), true)] + ExpectedStamps(end, stamps[1..])
  {
    hide Written, TimeOf;
  }

  lemma {:induction false} StampsOfRendered(before: string, stamps: seq<Form>, text: string)
    requires PlainText(text) && CanFollow(stamps, text) && forall i :: 0 <= i < |stamps| ==> ValidForm(stamps[i])
    ensures Stamps(before + WriteStamps(stamps) + text, |before|) == ExpectedStamps(|before|, stamps)
    decreases |stamps|
  {
    hide Written, Stamps, CanFollow, LooksLikeFraction, ValidForm, TimeOf;
    if stamps == [] {
      NoStamps(before + WriteStamps(stamps) + text, |before|);
    } else {
      hide WriteStamps, PlainText, ExpectedStamps;
      CutStamp(before, stamps, text);
      NextCanFollow(stamps, text);
      OneStamp(before + WriteStamps(stamps) + text, |before|, stamps[0], WriteStamps(stamps[1..]) + text);
      StampsOfRendered(before + Written(stamps[0]), stamps[1..], text);
      ExpectedCons(|before|, stamps);
    }
  }

  /** Stamps side by side, from one place to another, with the times of the forms. */
  predicate SideBySide(r: seq<Stamp>, stamps: seq<Form>, from: nat, end: nat) {
    && |r| == |stamps| && (r == [] ==> end == from)
    && (forall i :: 0 <= i < |r| ==> r[i].readable && r[i].millis == TimeOf(stamps[i]) && from <= r[i].from < r[i].end)
    && (forall i :: 0 <= i < |r| - 1 ==> r[i].end == r[i + 1].from)
    && (r != [] ==> r[0].from == from && r[|r| - 1].end == end)
  }

  lemma OneMoreBeside(first: Stamp, r: seq<Stamp>, x: Form, stamps: seq<Form>, end: nat)
    requires SideBySide(r, stamps, first.end, end) && first.readable && first.millis == TimeOf(x) && first.from < first.end
    ensures SideBySide([first] + r, [x] + stamps, first.from, end)
  {
    hide TimeOf;
    var all := [first] + r;
    forall i | 0 <= i < |all| - 1 ensures all[i].end == all[i + 1].from {
      if i > 0 {
        assert all[i] == r[i - 1] && all[i + 1] == r[i];
      }
    }
  }

  lemma NothingBeside(from: nat)
    ensures SideBySide(ExpectedStamps(from, []), [], from, from + |WriteStamps([])|)
  {
  }

  lemma StampsLength(stamps: seq<Form>)
    requires stamps != []
    ensures |WriteStamps(stamps)| == |Written(stamps[0])| + |WriteStamps(stamps[1..])| && |Written(stamps[0])| > 0
    ensures stamps == [stamps[0]] + stamps[1..]
  {
    NotEmpty(stamps[0]);
    hide Written;
  }

  lemma {:induction false} ExpectedAdjacent(from: nat, stamps: seq<Form>)
    ensures SideBySide(ExpectedStamps(from, stamps), stamps, from, from + |WriteStamps(stamps)|)
    decreases |stamps|
  {
    hide Written, WriteStamps, TimeOf, SideBySide, ExpectedStamps;
    if stamps == [] {
      NothingBeside(from);
    } else {
      StampsLength(stamps);
      var x, end := stamps[0], from + |Written(stamps[0])|;
      ExpectedAdjacent(end, stamps[1..]);
      ExpectedCons(from, stamps);
      OneMoreBeside(Stamp(from, end, TimeOf(x), true), ExpectedStamps(end, stamps[1..]), x, stamps[1..], end + |WriteStamps(stamps[1..])|);
    }
  }

  lemma {:induction false} AllLeading(line: string, stamps: seq<Stamp>, n: nat)
    requires n <= |stamps| && forall i :: 0 <= i < |stamps| ==> stamps[i].from < stamps[i].end <= |line|
    requires forall i, j :: 0 <= i < j < |stamps| ==> stamps[i].end <= stamps[j].from
    requires forall i :: 0 <= i < |stamps| - 1 ==> stamps[i].end == stamps[i + 1].from
    ensures Leading(line, stamps, n) == |stamps|
    decreases |stamps| - n
  {
    if n < |stamps| {
      AllLeading(line, stamps, n + 1);
    }
  }

  /** Brackets open stamps only. */
  predicate BracketsOpenStamps(s: string) {
    forall i :: 0 <= i < |s| && s[i] == '[' ==> i + 1 < |s| && IsDigit(s[i + 1])
  }

  lemma StampBeforeBrackets(first: string, rest: string)
    requires |first| >= 2 && IsDigit(first[1]) && forall i :: 1 <= i < |first| ==> first[i] != '['
    requires BracketsOpenStamps(rest)
    ensures BracketsOpenStamps(first + rest)
  {
    hide IsDigit;
    var s := first + rest;
    forall i | 0 <= i < |s| && s[i] == '[' ensures i + 1 < |s| && IsDigit(s[i + 1]) {
      if i >= |first| {
        assert rest[i - |first|] == '[';
      } else {
        assert i == 0;
      }
    }
  }

  lemma FirstStamp(stamps: seq<Form>, text: string)
    requires stamps != []
    ensures WriteStamps(stamps) + text == Written(stamps[0]) + (WriteStamps(stamps[1..]) + text)
  {
    hide Written;
  }

  lemma {:induction false} RenderedBrackets(stamps: seq<Form>, text: string)
    requires PlainText(text) && forall i :: 0 <= i < |stamps| ==> ValidForm(stamps[i])
    ensures BracketsOpenStamps(WriteStamps(stamps) + text)
    decreases |stamps|
  {
    if stamps == [] {
      assert WriteStamps(stamps) + text == text;
    } else {
      hide Written, WriteStamps, PlainText, BracketsOpenStamps, IsDigit, ValidForm;
      RenderedBrackets(stamps[1..], text);
      var first, rest := Written(stamps[0]), WriteStamps(stamps[1..]) + text;
      FirstStamp(stamps, text);
      WrittenCharacters(stamps[0]);
      StampBeforeBrackets(first, rest);
    }
  }

  predicate InStamp(c: char) {
    '0' <= c <= '9' || c == ':' || c == '.' || c == ']'
  }

  lemma InBoth(a: string, b: string)
    requires (forall i :: 0 <= i < |a| ==> InStamp(a[i])) && forall i :: 0 <= i < |b| ==> InStamp(b[i])
    ensures forall i :: 0 <= i < |a + b| ==> InStamp((a + b)[i])
  {
  }

  /** A stamp is an opening bracket with digits, colons, a dot and a closing bracket after it. */
  lemma WrittenCharacters(x: Form)
    requires ValidForm(x)
    ensures var s := Written(x);
            && |s| >= 2 && s[0] == '[' && IsDigit(s[1]) && s[|s| - 1] == ']'
            && (forall i :: 1 <= i < |s| ==> InStamp(s[i]) && s[i] != '[') && '\n' !in s
  {
    InBoth(HoursPart(x), x.minutes);
    InBoth(HoursPart(x) + x.minutes, ":");
    InBoth(HoursPart(x) + x.minutes + ":", x.seconds);
    InBoth(HoursPart(x) + x.minutes + ":" + x.seconds, FractionPart(x));
    InBoth(HoursPart(x) + x.minutes + ":" + x.seconds + FractionPart(x), "]");
    var body := HoursPart(x) + x.minutes + ":" + x.seconds + FractionPart(x) + "]";
    assert Written(x) == "[" + body;
    assert body[0] == if x.hours == "" then x.minutes[0] else x.hours[0];
  }

  lemma NotATag(line: string, t: Tag)
    requires BracketsOpenStamps(line)
    ensures TagAt(line, t).None?
  {
    var prefix := "[" + TagName(t) + ":";
    assert prefix[0] == '[' && !IsDigit(prefix[1]);
    if |line| >= 2 && line[0] == '[' {
      assert prefix[1] != line[1];
    }
  }

  lemma {:induction false} NoTag(line: string)
    requires BracketsOpenStamps(line)
    ensures FindTag(line).None?
    decreases |line|
  {
    if line != "" {
      NotATag(line, Artist);
      NotATag(line, Title);
      NotATag(line, Offset);
      NotATag(line, Language);
      assert BracketsOpenStamps(line[1..]) by {
        forall i | 0 <= i < |line[1..]| && line[1..][i] == '[' ensures i + 1 < |line[1..]| && IsDigit(line[1..][i + 1]) {
          assert line[i + 1] == '[';
        }
      }
      NoTag(line[1..]);
    }
  }

  lemma {:induction false} TrimKeeps(s: string)
    requires Trimmed(s)
    ensures Trim(s) == s
  {
  }

  lemma {:induction false} StampsEnds(stamps: seq<Form>)
    requires stamps != [] && forall i :: 0 <= i < |stamps| ==> ValidForm(stamps[i])
    ensures var s := WriteStamps(stamps); s != "" && s[0] == '[' && s[|s| - 1] == ']'
    decreases |stamps|
  {
    WrittenCharacters(stamps[0]);
    hide Written, ValidForm;
    if |stamps| > 1 {
      StampsEnds(stamps[1..]);
    } else {
      assert WriteStamps(stamps) == Written(stamps[0]) + "";
    }
  }

  lemma RenderedIsTrimmed(it: Item)
    requires ValidItem(it)
    ensures Trimmed(Render(it)) && Trim(Render(it)) == Render(it) && Render(it) != ""
    ensures Render(it)[|WriteStamps(it.stamps)|..] == it.text
  {
    StampsEnds(it.stamps);
    hide WriteStamps, ValidForm;
    TrimKeeps(Render(it));
  }

  lemma RenderedStamps(it: Item)
    requires ValidItem(it)
    ensures var stamps := Stamps(Render(it), 0);
            && SideBySide(stamps, it.stamps, 0, |WriteStamps(it.stamps)|) && Leading(Render(it), stamps, 1) == |stamps|
  {
    hide WriteStamps, ExpectedStamps, ValidForm, Stamps, CanFollow, SideBySide, PlainText;
    assert "" + WriteStamps(it.stamps) + it.text == Render(it);
    StampsOfRendered("", it.stamps, it.text);
    ExpectedAdjacent(0, it.stamps);
    BesideIsLeading(Render(it), Stamps(Render(it), 0), it.stamps, |WriteStamps(it.stamps)|);
  }

  lemma BesideIsLeading(line: string, r: seq<Stamp>, stamps: seq<Form>, end: nat)
    requires SideBySide(r, stamps, 0, end) && stamps != [] && r == Stamps(line, 0)
    ensures Leading(line, r, 1) == |r|
  {
    hide TimeOf, Stamps;
    AllLeading(line, r, 1);
  }

  lemma TimesSideBySide(r: seq<Stamp>, stamps: seq<Form>, from: nat, end: nat)
    requires SideBySide(r, stamps, from, end)
    ensures TimesOf(r, |r|) == Times(stamps) && AllReadable(r, |r|)
  {
    hide TimeOf;
  }

  /** All that the parser sees in a rendered line. */
  lemma RenderedParts(it: Item)
    requires ValidItem(it)
    ensures var line := Render(it);
            var stamps := Stamps(line, 0);
            && Trim(line) == line && line != "" && FindTag(line).None?
            && stamps != [] && |stamps| == |it.stamps| && stamps[0].from == 0 && Leading(line, stamps, 1) == |stamps|
            && stamps[|stamps| - 1].end <= |line| && Trim(line[stamps[|stamps| - 1].end..]) == it.text
            && AllReadable(stamps, |stamps|) && TimesOf(stamps, |stamps|) == Times(it.stamps)
  {
    hide WriteStamps, FindTag, Trim, ValidForm, TimeOf, Stamps, Leading, Times, TimesOf, AllReadable, BracketsOpenStamps;
    RenderedIsTrimmed(it);
    RenderedBrackets(it.stamps, it.text);
    NoTag(Render(it));
    RenderedStamps(it);
    TimesSideBySide(Stamps(Render(it), 0), it.stamps, 0, |WriteStamps(it.stamps)|);
    TrimKeeps(it.text);
  }

  /** A line of stamps and text, and nothing else. */
  lemma StampedStep(p: Parser, line: string, stamps: seq<Stamp>)
    requires Trim(line) == line && line != "" && FindTag(line).None?
    requires Stamps(line, 0) == stamps && stamps != [] && stamps[0].from == 0 && Leading(line, stamps, 1) == |stamps|
    requires !p.failed && AllReadable(stamps, |stamps|)
    ensures stamps[|stamps| - 1].end <= |line|
    ensures var p' := Flush(p.(repeated := p.repeated || |stamps| > 1));
            Step(p, true, line) == p'.(
              times := p'.times + TimesOf(stamps, |stamps|), prior := Trim(line[stamps[|stamps| - 1].end..]), valid := true)
  {
    hide Flush, Trim, FindTag, Stamps, Leading, TimesOf;
  }

  lemma FlushedTimes(p: Parser)
    requires !p.valid ==> p.times == []
    ensures Flush(p).times == []
  {
  }

  /** Reading a rendered line writes out the one before and keeps this one in hand. */
  lemma RenderedStep(p: Parser, it: Item)
    requires ValidItem(it) && (!p.valid ==> p.times == []) && !p.failed
    ensures Step(p, true, Render(it)) ==
              Flush(p.(repeated := p.repeated || |it.stamps| > 1)).(times := Times(it.stamps), prior := it.text, valid := true)
  {
    hide Step, Render, Stamps, FindTag, Trim, Leading, TimesOf, Flush, ValidItem, Times, AllReadable;
    RenderedParts(it);
    StampedStep(p, Render(it), Stamps(Render(it), 0));
    FlushedTimes(p.(repeated := p.repeated || |it.stamps| > 1));
    assert [] + Times(it.stamps) == Times(it.stamps);
  }

  lemma {:induction false} PlainHasNoTag(line: string)
    requires '[' !in line
    ensures FindTag(line).None?
    decreases |line|
  {
    if line != "" {
      NotATag(line, Artist);
      NotATag(line, Title);
      NotATag(line, Offset);
      NotATag(line, Language);
      PlainHasNoTag(line[1..]);
    }
  }

  /** A line without brackets goes on with the text in hand. */
  lemma PlainStep(p: Parser, line: string)
    requires p.valid && line != "" && PlainText(line) && !p.failed
    ensures Step(p, true, line) == p.(prior := p.prior + "\n" + line)
  {
    TrimKeeps(line);
    PlainHasNoTag(line);
    NoStamps(line, 0);
    hide Trim, FindTag, Stamps;
    assert p.(repeated := p.repeated) == p;
  }

  // ----- All lines -----

  function EntriesOf(items: seq<Item>): seq<Line> {
    if items == [] then []
    else EntriesOf(items[..|items| - 1]) + Entries(Times(items[|items| - 1].stamps), Trim(FullText(items[|items| - 1])))
  }

  /** All lines of all items. */
  function Rendered(items: seq<Item>): seq<string>
    requires forall it :: it in items ==> ValidItem(it)
  {
    if items == [] then []
    else Rendered(items[..|items| - 1]) + [Render(items[|items| - 1])] + items[|items| - 1].more
  }

  predicate SomeRepeated(items: seq<Item>) {
    exists i :: 0 <= i < |items| && |items[i].stamps| > 1
  }

  lemma RepeatedNext(items: seq<Item>, it: Item)
    ensures SomeRepeated(items + [it]) <==> SomeRepeated(items) || |it.stamps| > 1
  {
    var more := items + [it];
    assert more[|items|] == it;
    assert forall i :: 0 <= i < |items| ==> more[i] == items[i];
  }

  /** The state after some items and n further lines of the last one, which is still in hand. */
  predicate Holds(p: Parser, lang: string, items: seq<Item>, n: nat) {
    && p.artist == "" && p.title == "" && p.lang == lang && p.offset == None && !p.failed
    && p.repeated == SomeRepeated(items)
    && (if items == [] then !p.valid && p.times == [] && p.lines == []
        else
          var last := items[|items| - 1];
          p.valid && p.times == Times(last.stamps) && n <= |last.more| && p.prior == TextUpTo(last, n) && p.lines == EntriesOf(items[..|items| - 1]))
  }

  lemma FlushHolds(p: Parser, lang: string, items: seq<Item>, repeated: bool)
    requires Holds(p, lang, items, if items == [] then 0 else |items[|items| - 1].more|)
    ensures var p' := Flush(p.(repeated := repeated));
            && p'.lines == EntriesOf(items) && p'.repeated == repeated
            && p'.artist == "" && p'.title == "" && p'.lang == lang && p'.offset == None && !p'.failed
  {
    hide Trim, TextUpTo;
  }

  lemma HoldsNext(p: Parser, lang: string, items: seq<Item>, it: Item)
    requires Holds(p, lang, items, if items == [] then 0 else |items[|items| - 1].more|) && ValidItem(it)
    ensures Holds(Step(p, true, Render(it)), lang, items + [it], 0)
  {
    hide Step, Render, WriteStamps, Times, Trim, Flush, EntriesOf, ValidItem, SomeRepeated, FullText;
    RenderedStep(p, it);
    FlushHolds(p, lang, items, p.repeated || |it.stamps| > 1);
    RepeatedNext(items, it);
    var more := items + [it];
    assert more[..|more| - 1] == items && more[|more| - 1] == it;
  }

  lemma HoldsMore(p: Parser, lang: string, items: seq<Item>, n: nat)
    requires items != [] && Holds(p, lang, items, n) && ValidItem(items[|items| - 1]) && n < |items[|items| - 1].more|
    ensures Holds(Step(p, true, items[|items| - 1].more[n]), lang, items, n + 1)
  {
    PlainStep(p, items[|items| - 1].more[n]);
    hide Step;
  }

  lemma {:induction false} StepsOfMore(p: Parser, lang: string, items: seq<Item>, n: nat)
    requires items != [] && Holds(p, lang, items, 0) && ValidItem(items[|items| - 1]) && n <= |items[|items| - 1].more|
    ensures Holds(Steps(p, true, items[|items| - 1].more[..n]), lang, items, n)
  {
    hide Step, Holds, ValidItem;
    var more := items[|items| - 1].more;
    if n > 0 {
      StepsOfMore(p, lang, items, n - 1);
      assert more[..n][..n - 1] == more[..n - 1];
      HoldsMore(Steps(p, true, more[..n - 1]), lang, items, n - 1);
    }
  }

  lemma {:induction false} StepsSum(p: Parser, a: seq<string>, b: seq<string>)
    ensures Steps(p, true, a + b) == Steps(Steps(p, true, a), true, b)
  {
    hide Step;
    if b == [] {
      assert a + b == a;
    } else {
      assert (a + b)[..|a + b| - 1] == a + b[..|b| - 1];
      StepsSum(p, a, b[..|b| - 1]);
    }
  }

  lemma RenderedFront(items: seq<Item>)
    requires items != [] && forall it :: it in items ==> ValidItem(it)
    ensures var front, last := items[..|items| - 1], items[|items| - 1];
            && (forall it :: it in front ==> ValidItem(it)) && ValidItem(last)
            && Rendered(items) == (Rendered(front) + [Render(last)]) + last.more && front + [last] == items
  {
    hide Render, ValidItem;
    assert items[|items| - 1] in items;
    assert forall it :: it in items[..|items| - 1] ==> it in items;
  }

  lemma NothingHeld(lang: string)
    ensures Holds(Start(lang), lang, [], 0)
  {
  }

  lemma OneStep(p: Parser, a: seq<string>, line: string)
    ensures Steps(p, true, a + [line]) == Step(Steps(p, true, a), true, line)
  {
    hide Step;
    assert (a + [line])[..|a|] == a;
  }

  lemma {:induction false} StepsOfRendered(lang: string, items: seq<Item>)
    requires forall it :: it in items ==> ValidItem(it)
    ensures Holds(Steps(Start(lang), true, Rendered(items)), lang, items, if items == [] then 0 else |items[|items| - 1].more|)
  {
    hide Step, Steps, Render, Holds, ValidItem;
    if items == [] {
      NothingHeld(lang);
      NoSteps(Start(lang));
    } else {
      RenderedFront(items);
      hide Rendered;
      var front, last := items[..|items| - 1], items[|items| - 1];
      StepsOfRendered(lang, front);
      var before := Steps(Start(lang), true, Rendered(front));
      HoldsNext(before, lang, front, last);
      OneStep(Start(lang), Rendered(front), Render(last));
      StepsOfMore(Step(before, true, Render(last)), lang, items, |last.more|);
      assert last.more[..|last.more|] == last.more;
      StepsSum(Start(lang), Rendered(front) + [Render(last)], last.more);
    }
  }

  lemma NoSteps(p: Parser)
    ensures Steps(p, true, []) == p
  {
  }

  // ----- Lines of text -----

  lemma {:induction false} SplitOne(line: string)
    requires '\n' !in line
    ensures SplitLines(line) == [line]
  {
    if line != "" {
      SplitOne(line[1..]);
      assert [line[0]] + line[1..] == line;
    }
  }

  lemma {:induction false} SplitCons(line: string, rest: string)
    requires '\n' !in line
    ensures SplitLines(line + "\n" + rest) == [line] + SplitLines(rest)
    decreases |line|
  {
    var text := line + "\n" + rest;
    if line == "" {
      assert text[1..] == rest;
    } else {
      assert text[1..] == line[1..] + "\n" + rest;
      SplitCons(line[1..], rest);
      assert [line[0]] + line[1..] == line;
      assert ([line[1..]] + SplitLines(rest))[1..] == SplitLines(rest);
    }
  }

  lemma {:induction false} SplitJoined(lines: seq<string>)
    requires lines != [] && forall l :: l in lines ==> '\n' !in l
    ensures SplitLines(JoinLines(lines)) == lines
  {
    if |lines| == 1 {
      SplitOne(lines[0]);
    } else {
      assert lines[0] in lines;
      assert forall l :: l in lines[1..] ==> l in lines;
      SplitCons(lines[0], JoinLines(lines[1..]));
      SplitJoined(lines[1..]);
    }
  }

  lemma {:induction false} StampsHaveNoNewline(stamps: seq<Form>)
    requires forall i :: 0 <= i < |stamps| ==> ValidForm(stamps[i])
    ensures '\n' !in WriteStamps(stamps)
  {
    if stamps != [] {
      WrittenCharacters(stamps[0]);
      hide Written, ValidForm;
      StampsHaveNoNewline(stamps[1..]);
    }
  }

  lemma JoinedStarts(lines: seq<string>, first: string, rest: string) returns (tail: string)
    requires lines != [] && lines[0] == first + rest
    ensures JoinLines(lines) == first + tail
  {
    tail := if |lines| == 1 then rest else rest + "\n" + JoinLines(lines[1..]);
  }

  lemma {:induction false} RenderedLines(items: seq<Item>)
    requires forall it :: it in items ==> ValidItem(it)
    ensures forall l :: l in Rendered(items) ==> '\n' !in l
    ensures items != [] ==> Rendered(items) != [] && Rendered(items)[0] == Render(items[0])
  {
    if items != [] {
      RenderedFront(items);
      var front, last := items[..|items| - 1], items[|items| - 1];
      RenderedLines(front);
      StampsHaveNoNewline(last.stamps);
      forall l | l in Rendered(items) ensures '\n' !in l {
        assert l in Rendered(front) || l == Render(last) || l in last.more;
      }
    }
  }

  /** Joined lines begin with the first stamp of the first. */
  lemma JoinedIsSynced(items: seq<Item>)
    requires items != [] && forall it :: it in items ==> ValidItem(it)
    ensures IsSynced(JoinLines(Rendered(items)))
  {
    hide Written, WriteStamps, MatchTime, JoinLines, Rendered, LooseForm, PlainText, CanFollow;
    var it := items[0];
    assert it in items;
    FirstStamp(it.stamps, it.text);
    var first, rest := Written(it.stamps[0]), WriteStamps(it.stamps[1..]) + it.text;
    RenderedLines(items);
    var tail := JoinedStarts(Rendered(items), first, rest);
    StampIsMatched(it.stamps[0], tail);
  }

  /**
   Parsing written lyrics gives, in order, an entry with its text for every time of every
   item, and the parser knows whether some item had several times.
   */
  lemma ParseRendered(lang: string, items: seq<Item>)
    requires forall it :: it in items ==> ValidItem(it)
    ensures var text, p := JoinLines(Rendered(items)), Parsed(lang, JoinLines(Rendered(items)));
            && !p.failed
            && p.lines == EntriesOf(items) && p.lang == lang && p.artist == "" && p.title == "" && p.offset == None
            && (IsSynced(text) <==> items != [])
            && p.repeated == SomeRepeated(items)
  {
    if items == [] {
      assert Steps(Start(lang), IsSynced(""), [""]) == Step(Steps(Start(lang), IsSynced(""), []), IsSynced(""), "");
    } else {
      JoinedIsSynced(items);
      RenderedLines(items);
      SplitJoined(Rendered(items));
      StepsOfRendered(lang, items);
      hide Rendered, Steps, IsSynced, JoinLines, SplitLines, TextUpTo;
    }
  }

  // ----- Tags -----

  predicate TagValue(s: string) {
    s != "" && Trimmed(s) && ']' !in s
  }

  function RenderTag(t: Tag, value: string): string {
    "[" + TagName(t) + ":" + value + "]"
  }

  lemma {:induction false} BracketEnds(value: string)
    requires ']' !in value
    ensures UntilBracket(value + "]") == Some(value)
  {
    if value != "" {
      assert (value + "]")[1..] == value[1..] + "]";
      BracketEnds(value[1..]);
      assert [value[0]] + value[1..] == value;
    } else {
      assert value + "]" == "]";
    }
  }

  lemma OnlyOneTag(t: Tag, other: Tag, value: string)
    requires TagValue(value)
    ensures TagAt(RenderTag(t, value), other) == if t == other then Some(value) else None
  {
    var line, prefix, mine := RenderTag(t, value), "[" + TagName(other) + ":", "[" + TagName(t) + ":";
    assert line == mine + (value + "]");
    BracketEnds(value);
    if t == other {
      assert line[|mine|..] == value + "]";
    } else {
      assert line[1] == TagName(t)[0] && prefix[1] == TagName(other)[0] && prefix[1] != line[1];
    }
  }

  lemma TagIsFound(t: Tag, value: string)
    requires TagValue(value)
    ensures FindTag(RenderTag(t, value)) == Some((t, value))
  {
    OnlyOneTag(t, Artist, value);
    OnlyOneTag(t, Title, value);
    OnlyOneTag(t, Offset, value);
    OnlyOneTag(t, Language, value);
    hide TagAt;
  }

  function Digit(n: int): (c: char)
    requires 0 <= n < 10
    ensures IsDigit(c) && c as int - '0' as int == n
  {
    ('0' as int + n) as char
  }

  /** The decimal digits of a number, with a sign if it is negative. */
  function Decimal(n: int): string {
    if n < 0 then "-" + Digits(-n) else Digits(n)
  }

  function Digits(n: nat): (s: string)
    ensures s != "" && AllDigits(s)
  {
    if n < 10 then [Digit(n)] else Digits(n / 10) + [Digit(n % 10)]
  }

  lemma {:induction false} NumOfDigits(n: nat)
    ensures Num(Digits(n)) == n
  {
    var s := Digits(n);
    if n < 10 {
      assert s[..0] == "";
    } else {
      NumOfDigits(n / 10);
      assert s[..|s| - 1] == Digits(n / 10);
    }
  }

  lemma ParseDecimal(n: int)
    requires -MAX_INT64 - 1 <= n <= MAX_INT64
    ensures ParseInt64(Decimal(n)) == Some(n)
  {
    var m: nat := if n < 0 then -n else n;
    NumOfDigits(m);
    hide Digits, Num;
    if n < 0 {
      assert Decimal(n)[1..] == Digits(m);
    } else {
      assert IsDigit(Digits(m)[0]);
    }
  }

  // ----- Which numbers are read -----

  function Pow10(k: nat): int {
    if k == 0 then 1 else 10 * Pow10(k - 1)
  }

  /** The value of a row of digits, by their places. */
  function ByPlaces(s: string): int {
    if s == "" then 0 else (s[0] as int - '0' as int) * Pow10(|s| - 1) + ByPlaces(s[1..])
  }

  lemma {:induction false} OneMorePlace(s: string, c: char)
    ensures ByPlaces(s + [c]) == ByPlaces(s) * 10 + (c as int - '0' as int)
  {
    if s == "" {
      assert [c][1..] == "" && ([] + [c]) == [c];
    } else {
      assert (s + [c])[1..] == s[1..] + [c];
      OneMorePlace(s[1..], c);
    }
  }

  lemma {:induction false} NumIsByPlaces(s: string)
    requires AllDigits(s)
    ensures Num(s) == ByPlaces(s)
  {
    if s != "" {
      NumIsByPlaces(s[..|s| - 1]);
      OneMorePlace(s[..|s| - 1], s[|s| - 1]);
      assert s == s[..|s| - 1] + [s[|s| - 1]];
    }
  }

  /** Digits, one at least, behind a sign or none. */
  predicate Denotes(s: string, n: int) {
    || (s != "" && (forall i :: 0 <= i < |s| ==> '0' <= s[i] <= '9') && n == ByPlaces(s))
    || (|s| > 1 && s[0] == '+' && (forall i :: 1 <= i < |s| ==> '0' <= s[i] <= '9') && n == ByPlaces(s[1..]))
    || (|s| > 1 && s[0] == '-' && (forall i :: 1 <= i < |s| ==> '0' <= s[i] <= '9') && n == -ByPlaces(s[1..]))
  }

  lemma AllDigitsIff(s: string)
    ensures AllDigits(s) <==> forall i :: 0 <= i < |s| ==> '0' <= s[i] <= '9'
    ensures s != "" ==> (AllDigits(s[1..]) <==> forall i :: 1 <= i < |s| ==> '0' <= s[i] <= '9')
  {
    if s != "" {
      assert forall i :: 1 <= i < |s| ==> s[i] == s[1..][i - 1];
    }
  }

  /** A number is read if and only if it fits into 64 bits with a sign. */
  lemma ParseInt64Iff(s: string, n: int)
    ensures ParseInt64(s) == Some(n) <==> Denotes(s, n) && -0x8000_0000_0000_0000 <= n <= 0x7FFF_FFFF_FFFF_FFFF
  {
    AllDigitsIff(s);
    if AllDigits(s) {
      NumIsByPlaces(s);
    }
    if s != "" && AllDigits(s[1..]) {
      NumIsByPlaces(s[1..]);
    }
    hide AllDigits, Num, ByPlaces;
  }

  /** A tag sets what it names, and nothing else; an offset counts only if it is a number. */
  lemma TagIsRead(p: Parser, value: string)
    requires TagValue(value)
    ensures SyncedStep(p, RenderTag(Artist, value)) == p.(artist := value)
    ensures SyncedStep(p, RenderTag(Title, value)) == p.(title := value)
    ensures SyncedStep(p, RenderTag(Language, value)) == p.(lang := value)
    ensures ParseInt64(value).None? ==> SyncedStep(p, RenderTag(Offset, value)) == p
  {
    TagIsFound(Artist, value);
    TagIsFound(Title, value);
    TagIsFound(Language, value);
    TagIsFound(Offset, value);
    TrimKeeps(value);
    hide FindTag, Trim, RenderTag, Stamps, Leading, ParseInt64;
  }

  lemma DecimalIsValue(n: int)
    ensures TagValue(Decimal(n))
  {
    var s := Decimal(n);
    assert forall i :: 0 <= i < |s| ==> IsDigit(s[i]) || s[i] == '-';
  }

  /** Every 64-bit offset comes back as it was written. */
  lemma OffsetIsRead(p: Parser, n: int)
    requires -MAX_INT64 - 1 <= n <= MAX_INT64
    ensures SyncedStep(p, RenderTag(Offset, Decimal(n))) == p.(offset := Some(n))
  {
    DecimalIsValue(n);
    ParseDecimal(n);
    TagIsFound(Offset, Decimal(n));
    TrimKeeps(Decimal(n));
    hide FindTag, Trim, RenderTag, Stamps, Leading, ParseInt64, Decimal;
  }

  // ----- Unsynchronized lyrics -----

  lemma {:induction false} NoBracketsNoStamps(text: string)
    requires '[' !in text
    ensures !IsSynced(text)
  {
    NotStampAfterSpace(text);
    forall i | 0 <= i < |text| && text[i] == '\n' ensures !StampAfterSpace(text[i + 1..]) {
      NotStampAfterSpace(text[i + 1..]);
    }
  }

  lemma {:induction false} NotStampAfterSpace(text: string)
    requires '[' !in text
    ensures !StampAfterSpace(text)
  {
    if text != "" {
      NotStampAfterSpace(text[1..]);
    }
  }

  function Untimed(lines: seq<string>): seq<Line> {
    seq(|lines|, i requires 0 <= i < |lines| => Line(None, lines[i]))
  }

  lemma {:induction false} StepsOfPlain(lang: string, lines: seq<string>)
    requires forall l :: l in lines ==> l != "" && PlainText(l)
    ensures Steps(Start(lang), false, lines) == Start(lang).(lines := Untimed(lines))
  {
    if lines != [] {
      var front, last := lines[..|lines| - 1], lines[|lines| - 1];
      assert last in lines;
      assert forall l :: l in front ==> l in lines;
      StepsOfPlain(lang, front);
      TrimKeeps(last);
      hide Trim;
      assert Untimed(lines) == Untimed(front) + [Line(None, last)];
    }
  }

  lemma {:induction false} JoinedIsPlain(lines: seq<string>)
    requires forall l :: l in lines ==> '[' !in l
    ensures '[' !in JoinLines(lines)
  {
    if |lines| > 1 {
      assert forall l :: l in lines[1..] ==> l in lines;
      JoinedIsPlain(lines[1..]);
      assert lines[0] in lines;
    } else if |lines| == 1 {
      assert lines[0] in lines;
    }
  }

  /** Lines without stamps come back as lines without times. */
  lemma ParsePlain(lang: string, lines: seq<string>)
    requires lines != [] && forall l :: l in lines ==> l != "" && PlainText(l)
    ensures !IsSynced(JoinLines(lines))
    ensures Parsed(lang, JoinLines(lines)).lines == Untimed(lines) && !Parsed(lang, JoinLines(lines)).failed
  {
    JoinedIsPlain(lines);
    NoBracketsNoStamps(JoinLines(lines));
    SplitJoined(lines);
    StepsOfPlain(lang, lines);
    hide IsSynced, SplitLines, JoinLines, Steps;
  }
}

/**
 What the parser makes of any text, said line by line: a line that begins with stamps goes on
 until the next such line, and gives its text once for each of its times.
 */
module LyricsReference {
  import opened Options
  import opened Text
  import opened LyricsModel

  // ----- Lines -----

  /** The line has no tag and begins with a stamp. */
  predicate IsStamped(raw: string) {
    FindTag(Trim(raw)).None? && Stamps(Trim(raw), 0) != [] && Stamps(Trim(raw), 0)[0].from == 0
  }

  /** A blank line, or one that goes on with the text of a line before it. */
  predicate IsText(raw: string) {
    FindTag(Trim(raw)).None? && !IsStamped(raw)
  }

  function TimesIn(raw: string): seq<int>
    requires IsStamped(raw)
  {
    var stamps := Stamps(Trim(raw), 0);
    TimesOf(stamps, Leading(Trim(raw), stamps, 1))
  }

  function Behind(raw: string): string
    requires IsStamped(raw)
  {
    var stamps := Stamps(Trim(raw), 0);
    Trim(Trim(raw)[stamps[Leading(Trim(raw), stamps, 1) - 1].end..])
  }

  /** What the line adds to the text in hand. */
  function Adds(raw: string): string {
    if IsText(raw) then "\n" + Trim(raw) else ""
  }

  /** The text of the stamped line i, as far as the lines before n go on with it. */
  function TextOf(lines: seq<string>, i: nat, n: nat): string
    requires i < n <= |lines| && IsStamped(lines[i])
  {
    if n == i + 1 then Behind(lines[i])
    else TextOf(lines, i, n - 1) + Adds(lines[n - 1])
  }

  /** The positions of all stamped lines, in order. */
  ghost predicate StampedAt(at: seq<nat>, lines: seq<string>) {
    && (forall i, j :: 0 <= i < j < |at| ==> at[i] < at[j])
    && (forall k :: k in at <==> 0 <= k < |lines| && IsStamped(lines[k]))
  }

  lemma StampedIsThere(at: seq<nat>, lines: seq<string>, i: nat)
    requires StampedAt(at, lines) && i < |at|
    ensures at[i] < |lines| && IsStamped(lines[at[i]])
    ensures i + 1 < |at| ==> at[i] < at[i + 1] < |lines|
  {
    assert at[i] in at;
    if i + 1 < |at| {
      assert at[i + 1] in at;
    }
  }

  /** Where the text of the i-th stamped line ends: at the next one, or with the last line. */
  function EndAt(at: seq<nat>, i: nat, n: nat): nat {
    if i + 1 < |at| then at[i + 1] else n
  }

  function EntriesOfLine(lines: seq<string>, i: nat, n: nat): seq<Line>
    requires i < n <= |lines| && IsStamped(lines[i])
  {
    Entries(TimesIn(lines[i]), Trim(TextOf(lines, i, n)))
  }

  ghost function EntriesAt(lines: seq<string>, at: seq<nat>, i: nat): seq<Line>
    requires StampedAt(at, lines) && i < |at|
  {
    StampedIsThere(at, lines, i);
    EntriesOfLine(lines, at[i], EndAt(at, i, |lines|))
  }

  /** The entries of the first k stamped lines. */
  ghost function AllEntries(lines: seq<string>, at: seq<nat>, k: nat): seq<Line>
    requires StampedAt(at, lines) && k <= |at|
  {
    if k == 0 then [] else AllEntries(lines, at, k - 1) + EntriesAt(lines, at, k - 1)
  }

  // ----- One line more -----

  lemma {:induction false} TextStays(lines: seq<string>, raw: string, i: nat, n: nat)
    requires i < n <= |lines| && IsStamped(lines[i])
    ensures TextOf(lines + [raw], i, n) == TextOf(lines, i, n)
  {
    hide IsStamped, Adds, Behind, Trim;
    if n > i + 1 {
      TextStays(lines, raw, i, n - 1);
    }
  }

  lemma TextGoesOn(lines: seq<string>, raw: string, i: nat)
    requires i < |lines| && IsStamped(lines[i])
    ensures TextOf(lines + [raw], i, |lines| + 1) == TextOf(lines, i, |lines|) + Adds(raw)
  {
    hide IsStamped, Adds, Behind, Trim;
    TextStays(lines, raw, i, |lines|);
  }

  lemma StampedMore(at: seq<nat>, lines: seq<string>, raw: string)
    requires StampedAt(at, lines)
    ensures StampedAt(if IsStamped(raw) then at + [|lines|] else at, lines + [raw])
  {
    hide IsStamped;
    var longer, more := lines + [raw], if IsStamped(raw) then at + [|lines|] else at;
    assert forall i :: 0 <= i < |at| ==> at[i] in at;
    forall k ensures k in more <==> 0 <= k < |longer| && IsStamped(longer[k]) {
      assert k in more <==> k in at || (k == |lines| && IsStamped(raw));
      if 0 <= k < |lines| {
        assert longer[k] == lines[k];
      }
    }
  }

  lemma LineStays(lines: seq<string>, raw: string, i: nat, n: nat)
    requires i < n <= |lines| && IsStamped(lines[i])
    ensures EntriesOfLine(lines + [raw], i, n) == EntriesOfLine(lines, i, n)
  {
    TextStays(lines, raw, i, n);
    hide IsStamped, TextOf, TimesIn, Trim, Entries;
  }

  lemma EntriesStay(lines: seq<string>, raw: string, at: seq<nat>, more: seq<nat>, i: nat)
    requires StampedAt(at, lines) && StampedAt(more, lines + [raw]) && i < |at|
    requires more == at + [|lines|] || (more == at && i + 1 < |at|)
    ensures EntriesAt(lines + [raw], more, i) == EntriesAt(lines, at, i)
  {
    StampedIsThere(at, lines, i);
    hide StampedAt, IsStamped, EntriesOfLine;
    LineStays(lines, raw, at[i], EndAt(at, i, |lines|));
  }

  lemma {:induction false} AllEntriesStay(lines: seq<string>, raw: string, at: seq<nat>, more: seq<nat>, k: nat)
    requires StampedAt(at, lines) && StampedAt(more, lines + [raw]) && k <= |at|
    requires more == at + [|lines|] || (more == at && k < |at|)
    ensures AllEntries(lines + [raw], more, k) == AllEntries(lines, at, k)
  {
    hide StampedAt, EntriesAt;
    if k > 0 {
      AllEntriesStay(lines, raw, at, more, k - 1);
      EntriesStay(lines, raw, at, more, k - 1);
    }
  }

  /** What the parser holds after some lines: the entries of all stamped lines but the last, which it has in hand. */
  ghost predicate HasRead(p: Parser, lines: seq<string>, at: seq<nat>)
    requires StampedAt(at, lines)
  {
    && !p.failed && (p.valid <==> at != [])
    && (at == [] ==> p.times == [] && p.lines == [])
    && (at != [] ==>
          && Holds(p, lines, at[|at| - 1])
          && p.lines == AllEntries(lines, at, |at| - 1))
  }

  predicate Holds(p: Parser, lines: seq<string>, i: nat) {
    i < |lines| && IsStamped(lines[i]) && p.times == TimesIn(lines[i]) && p.prior == TextOf(lines, i, |lines|)
  }

  lemma BlankIsNotStamped(raw: string)
    ensures IsStamped(raw) ==> Trim(raw) != ""
  {
    assert Stamps("", 0) == [];
    hide Trim, FindTag;
  }

  lemma StepOnStamped(p: Parser, raw: string)
    requires IsStamped(raw) && !p.failed && !Step(p, true, raw).failed
    ensures var p' := Step(p, true, raw);
            && p'.valid && p'.prior == Behind(raw)
            && p'.times == (if p.valid then [] else p.times) + TimesIn(raw)
            && p'.lines == p.lines + if p.valid then Entries(p.times, Trim(p.prior)) else []
  {
    BlankIsNotStamped(raw);
    hide Stamps, FindTag, Trim, Leading, TimesOf, AllReadable, Entries;
  }

  lemma StepOnOthers(p: Parser, raw: string)
    requires !IsStamped(raw) && !p.failed
    ensures var p' := Step(p, true, raw);
            && !p'.failed && p'.valid == p.valid && p'.times == p.times && p'.lines == p.lines
            && (p.valid ==> p'.prior == p.prior + Adds(raw))
  {
    assert p.prior + "" == p.prior;
    if Trim(raw) == "" {
      assert FindTag("").None? && Stamps("", 0) == [];
      assert p.prior + "\n" == p.prior + ("\n" + "");
    } else {
      assert p.prior + "\n" + Trim(raw) == p.prior + ("\n" + Trim(raw));
      hide Stamps, FindTag, Trim, Leading, TimesOf, AllReadable, Entries, ParseInt64;
    }
  }

  lemma StampedIsHeld(p: Parser, lines: seq<string>, raw: string)
    requires IsStamped(raw) && p.times == TimesIn(raw) && p.prior == Behind(raw)
    ensures Holds(p, lines + [raw], |lines|)
  {
    hide IsStamped, TimesIn, Behind;
    assert (lines + [raw])[|lines|] == raw;
  }

  lemma HasReadMore(p': Parser, lines: seq<string>, at: seq<nat>, raw: string)
    requires StampedAt(at, lines) && StampedAt(at + [|lines|], lines + [raw])
    requires !p'.failed && p'.valid && Holds(p', lines + [raw], |lines|) && p'.lines == AllEntries(lines, at, |at|)
    ensures HasRead(p', lines + [raw], at + [|lines|])
  {
    hide StampedAt, Holds, AllEntries;
    AllEntriesStay(lines, raw, at, at + [|lines|], |at|);
  }

  lemma NewStamped(p: Parser, lines: seq<string>, at: seq<nat>, raw: string)
    requires StampedAt(at, lines) && HasRead(p, lines, at) && IsStamped(raw) && !Step(p, true, raw).failed
    ensures StampedAt(at + [|lines|], lines + [raw]) && HasRead(Step(p, true, raw), lines + [raw], at + [|lines|])
  {
    StampedMore(at, lines, raw);
    StepOnStamped(p, raw);
    if at != [] {
      LastEntries(p, lines, at);
    }
    var p' := Step(p, true, raw);
    hide StampedAt, IsStamped, TimesIn, Behind, Trim, Entries, Step, Holds;
    assert p'.times == TimesIn(raw) && p'.lines == AllEntries(lines, at, |at|);
    StampedIsHeld(p', lines, raw);
    HasReadMore(p', lines, at, raw);
  }

  lemma LastEntries(p: Parser, lines: seq<string>, at: seq<nat>)
    requires StampedAt(at, lines) && HasRead(p, lines, at) && at != []
    ensures AllEntries(lines, at, |at|) == p.lines + Entries(p.times, Trim(p.prior))
  {
    hide StampedAt, IsStamped, TimesIn, Trim, Entries, TextOf;
  }

  lemma SameLine(lines: seq<string>, raw: string, i: nat)
    requires i < |lines|
    ensures (lines + [raw])[i] == lines[i] && |lines + [raw]| == |lines| + 1
  {
  }

  lemma HeldGoesOn(p: Parser, p': Parser, lines: seq<string>, i: nat, raw: string)
    requires Holds(p, lines, i) && p'.times == p.times && p'.prior == p.prior + Adds(raw)
    ensures Holds(p', lines + [raw], i)
  {
    hide IsStamped, TimesIn, Adds, TextOf;
    SameLine(lines, raw, i);
    TextGoesOn(lines, raw, i);
  }

  lemma HasReadSame(p: Parser, p': Parser, lines: seq<string>, at: seq<nat>, raw: string)
    requires StampedAt(at, lines) && StampedAt(at, lines + [raw]) && HasRead(p, lines, at)
    requires !p'.failed && p'.valid == p.valid && p'.times == p.times && p'.lines == p.lines
    requires p.valid ==> p'.prior == p.prior + Adds(raw)
    ensures HasRead(p', lines + [raw], at)
  {
    hide StampedAt, Holds, AllEntries, Adds;
    if at != [] {
      AllEntriesStay(lines, raw, at, at, |at| - 1);
      HeldGoesOn(p, p', lines, at[|at| - 1], raw);
    }
  }

  lemma NotStamped(p: Parser, lines: seq<string>, at: seq<nat>, raw: string)
    requires StampedAt(at, lines) && HasRead(p, lines, at) && !IsStamped(raw)
    ensures StampedAt(at, lines + [raw]) && HasRead(Step(p, true, raw), lines + [raw], at)
  {
    StampedMore(at, lines, raw);
    NothingFailed(p, lines, at);
    StepOnOthers(p, raw);
    hide StampedAt, IsStamped, HasRead, Step, Adds;
    HasReadSame(p, Step(p, true, raw), lines, at, raw);
  }

  lemma NothingFailed(p: Parser, lines: seq<string>, at: seq<nat>)
    requires StampedAt(at, lines) && HasRead(p, lines, at)
    ensures !p.failed
  {
  }

  lemma LastStep(p: Parser, lines: seq<string>)
    requires lines != []
    ensures var front, raw := lines[..|lines| - 1], lines[|lines| - 1];
            lines == front + [raw] && Steps(p, true, lines) == Step(Steps(p, true, front), true, raw)
  {
    hide Step;
  }

  lemma NothingRead(lang: string)
    ensures StampedAt([], []) && HasRead(Steps(Start(lang), true, []), [], [])
  {
  }

  lemma {:induction false} StepsRead(lang: string, lines: seq<string>) returns (at: seq<nat>)
    requires !Steps(Start(lang), true, lines).failed
    ensures StampedAt(at, lines) && HasRead(Steps(Start(lang), true, lines), lines, at)
  {
    hide Steps, Step, Start, StampedAt, IsStamped, HasRead;
    at := [];
    if lines == [] {
      NothingRead(lang);
    } else {
      var front, raw := lines[..|lines| - 1], lines[|lines| - 1];
      LastStep(Start(lang), lines);
      FailedBefore(Steps(Start(lang), true, front), raw);
      at := StepsRead(lang, front);
      if IsStamped(raw) {
        NewStamped(Steps(Start(lang), true, front), front, at, raw);
        at := at + [|front|];
      } else {
        NotStamped(Steps(Start(lang), true, front), front, at, raw);
      }
    }
  }

  lemma FailedBefore(p: Parser, raw: string)
    ensures p.failed ==> Step(p, true, raw).failed
  {
  }

  /** The lines of synced lyrics are the entries of all stamped lines, in order. */
  lemma SyncedLines(lang: string, text: string)
    requires IsSynced(text) && !Parsed(lang, text).failed
    ensures exists at: seq<nat> ::
              StampedAt(at, SplitLines(text)) && Parsed(lang, text).lines == AllEntries(SplitLines(text), at, |at|)
  {
    var lines := SplitLines(text);
    hide Steps, IsSynced, SplitLines, StampedAt, AllEntries, Entries, Trim;
    var at := StepsRead(lang, lines);
    if at != [] {
      LastEntries(Steps(Start(lang), true, lines), lines, at);
    } else {
      NoEntries(lines);
    }
  }

  lemma NoEntries(lines: seq<string>)
    ensures StampedAt([], lines) ==> AllEntries(lines, [], 0) == []
  {
  }

  // ----- Tags -----

  predicate NamesTag(raw: string, t: Tag) {
    FindTag(Trim(raw)).Some? && FindTag(Trim(raw)).value.0 == t
  }

  function ValueIn(raw: string): string
    requires FindTag(Trim(raw)).Some?
  {
    Trim(FindTag(Trim(raw)).value.1)
  }

  /** The line has a tag that counts: an offset does only if it is a number. */
  predicate Sets(raw: string, t: Tag) {
    NamesTag(raw, t) && (t.Offset? ==> ParseInt64(ValueIn(raw)).Some?)
  }

  ghost predicate IsLast(lines: seq<string>, t: Tag, i: nat) {
    i < |lines| && Sets(lines[i], t) && forall j :: i < j < |lines| ==> !Sets(lines[j], t)
  }

  lemma LastOfMore(lines: seq<string>, t: Tag, raw: string)
    ensures Sets(raw, t) ==> forall i: nat :: IsLast(lines + [raw], t, i) <==> i == |lines|
    ensures !Sets(raw, t) ==> forall i: nat :: IsLast(lines + [raw], t, i) <==> IsLast(lines, t, i)
  {
    hide Sets;
    var longer := lines + [raw];
    assert longer[|lines|] == raw && forall k :: 0 <= k < |lines| ==> longer[k] == lines[k];
    if Sets(raw, t) {
      forall i: nat ensures IsLast(longer, t, i) <==> i == |lines| {
        assert i < |lines| ==> Sets(longer[|lines|], t);
      }
    }
  }

  predicate NoneSets(lines: seq<string>, t: Tag) {
    forall i :: 0 <= i < |lines| ==> !Sets(lines[i], t)
  }

  lemma NoneOfMore(lines: seq<string>, t: Tag, raw: string)
    ensures NoneSets(lines + [raw], t) <==> NoneSets(lines, t) && !Sets(raw, t)
  {
    hide Sets;
    var longer := lines + [raw];
    assert longer[|lines|] == raw && forall k :: 0 <= k < |lines| ==> longer[k] == lines[k];
  }

  /** A field has the value of the last line that sets it, or the value it started with. */
  ghost predicate FieldIs(lines: seq<string>, t: Tag, value: string, initial: string) {
    && (NoneSets(lines, t) ==> value == initial)
    && forall i: nat :: IsLast(lines, t, i) ==> i < |lines| && FindTag(Trim(lines[i])).Some? && value == ValueIn(lines[i])
  }

  ghost predicate OffsetIs(lines: seq<string>, value: Option<int>) {
    && (NoneSets(lines, Offset) ==> value == None)
    && forall i: nat :: IsLast(lines, Offset, i) ==>
         i < |lines| && FindTag(Trim(lines[i])).Some? && value == ParseInt64(ValueIn(lines[i]))
  }

  /** Some line without a tag has more than one stamp. */
  predicate SeveralStamps(raw: string) {
    FindTag(Trim(raw)).None? && |Stamps(Trim(raw), 0)| > 1
  }

  lemma BlankSetsNothing(raw: string)
    requires Trim(raw) == ""
    ensures !SeveralStamps(raw) && forall t :: !Sets(raw, t)
  {
    assert FindTag("").None? && Stamps("", 0) == [];
    hide Trim;
  }

  lemma FieldsOfSyncedStep(p: Parser, raw: string)
    ensures var p' := SyncedStep(p, Trim(raw));
            && p'.artist == (if Sets(raw, Artist) then ValueIn(raw) else p.artist)
            && p'.title == (if Sets(raw, Title) then ValueIn(raw) else p.title)
            && p'.lang == (if Sets(raw, Language) then ValueIn(raw) else p.lang)
            && p'.offset == (if Sets(raw, Offset) then ParseInt64(ValueIn(raw)) else p.offset)
            && (p'.repeated <==> p.repeated || SeveralStamps(raw))
  {
    hide Stamps, FindTag, Trim, Leading, TimesOf, AllReadable, Entries, ParseInt64;
  }

  lemma FieldsOfStep(p: Parser, raw: string)
    requires !p.failed && !Step(p, true, raw).failed
    ensures var p' := Step(p, true, raw);
            && p'.artist == (if Sets(raw, Artist) then ValueIn(raw) else p.artist)
            && p'.title == (if Sets(raw, Title) then ValueIn(raw) else p.title)
            && p'.lang == (if Sets(raw, Language) then ValueIn(raw) else p.lang)
            && p'.offset == (if Sets(raw, Offset) then ParseInt64(ValueIn(raw)) else p.offset)
            && (p'.repeated <==> p.repeated || SeveralStamps(raw))
  {
    SetsIsTagged(raw, Artist);
    SetsIsTagged(raw, Title);
    SetsIsTagged(raw, Language);
    SetsIsTagged(raw, Offset);
    hide SyncedStep, Sets, ValueIn, SeveralStamps, Trim, ParseInt64, FindTag;
    if Trim(raw) == "" {
      BlankSetsNothing(raw);
    } else {
      FieldsOfSyncedStep(p, raw);
    }
  }

  lemma SetsIsTagged(raw: string, t: Tag)
    ensures Sets(raw, t) ==> FindTag(Trim(raw)).Some?
  {
  }

  lemma FieldOfMore(lines: seq<string>, t: Tag, value: string, initial: string, raw: string)
    requires FieldIs(lines, t, value, initial)
    ensures FieldIs(lines + [raw], t, if Sets(raw, t) then ValueIn(raw) else value, initial)
  {
    SetsIsTagged(raw, t);
    hide FindTag, Trim, IsLast, NoneSets, Sets;
    LastOfMore(lines, t, raw);
    NoneOfMore(lines, t, raw);
    var longer := lines + [raw];
    assert longer[|lines|] == raw && forall k :: 0 <= k < |lines| ==> longer[k] == lines[k];
  }

  lemma OffsetOfMore(lines: seq<string>, value: Option<int>, raw: string)
    requires OffsetIs(lines, value)
    ensures OffsetIs(lines + [raw], if Sets(raw, Offset) then ParseInt64(ValueIn(raw)) else value)
  {
    SetsIsTagged(raw, Offset);
    hide FindTag, Trim, IsLast, NoneSets, Sets, ParseInt64;
    LastOfMore(lines, Offset, raw);
    NoneOfMore(lines, Offset, raw);
    var longer := lines + [raw];
    assert longer[|lines|] == raw && forall k :: 0 <= k < |lines| ==> longer[k] == lines[k];
  }

  ghost predicate FieldsAre(p: Parser, lang: string, lines: seq<string>) {
    && FieldIs(lines, Artist, p.artist, "") && FieldIs(lines, Title, p.title, "") && FieldIs(lines, Language, p.lang, lang)
    && OffsetIs(lines, p.offset)
    && (p.repeated <==> exists i :: 0 <= i < |lines| && SeveralStamps(lines[i]))
  }

  lemma RepeatedMore(lines: seq<string>, raw: string)
    ensures (exists i :: 0 <= i < |lines + [raw]| && SeveralStamps((lines + [raw])[i])) <==>
              SeveralStamps(raw) || exists i :: 0 <= i < |lines| && SeveralStamps(lines[i])
  {
    hide SeveralStamps;
    var longer := lines + [raw];
    assert longer[|lines|] == raw && forall k :: 0 <= k < |lines| ==> longer[k] == lines[k];
  }

  lemma FieldsMore(p: Parser, p': Parser, lang: string, lines: seq<string>, raw: string)
    requires FieldsAre(p, lang, lines) && !p.failed && p' == Step(p, true, raw) && !p'.failed
    ensures FieldsAre(p', lang, lines + [raw])
  {
    FieldsOfStep(p, raw);
    hide Step, FieldIs, OffsetIs, SeveralStamps, Sets, ValueIn, FindTag, Trim, ParseInt64;
    FieldOfMore(lines, Artist, p.artist, "", raw);
    FieldOfMore(lines, Title, p.title, "", raw);
    FieldOfMore(lines, Language, p.lang, lang, raw);
    OffsetOfMore(lines, p.offset, raw);
    RepeatedMore(lines, raw);
  }

  lemma NoFields(lang: string)
    ensures FieldsAre(Steps(Start(lang), true, []), lang, [])
  {
  }

  /** Artist, title, language and offset are those of the last tags, and lines are repeated if some line has several stamps. */
  lemma {:induction false} FieldsAreRead(lang: string, lines: seq<string>)
    requires !Steps(Start(lang), true, lines).failed
    ensures FieldsAre(Steps(Start(lang), true, lines), lang, lines)
  {
    hide Steps, Step, Start, FieldsAre;
    if lines == [] {
      NoFields(lang);
    } else {
      var front, raw := lines[..|lines| - 1], lines[|lines| - 1];
      LastStep(Start(lang), lines);
      FailedBefore(Steps(Start(lang), true, front), raw);
      FieldsAreRead(lang, front);
      FieldsMore(Steps(Start(lang), true, front), Steps(Start(lang), true, lines), lang, front, raw);
    }
  }

  // ----- Lyrics without stamps -----

  /** Every line that is not blank, trimmed and without a time. */
  function PlainLines(lines: seq<string>): seq<Line> {
    if lines == [] then []
    else
      PlainLines(lines[..|lines| - 1])
      + if Trim(lines[|lines| - 1]) == "" then [] else [Line(None, Trim(lines[|lines| - 1]))]
  }

  lemma {:induction false} UnsyncedSteps(lang: string, lines: seq<string>)
    ensures Steps(Start(lang), false, lines) == Parser("", "", lang, None, "", false, false, [], PlainLines(lines), false)
  {
    hide Trim;
    if lines != [] {
      UnsyncedSteps(lang, lines[..|lines| - 1]);
    }
  }

  // ----- The result -----

  /** Lines with several stamps, which are sorted in the end. */
  predicate Repeats(text: string) {
    exists i :: 0 <= i < |SplitLines(text)| && SeveralStamps(SplitLines(text)[i])
  }

  lemma ParsedFields(lang: string, text: string)
    requires !Parsed(lang, text).failed
    ensures IsSynced(text) ==> FieldsAre(Parsed(lang, text), lang, SplitLines(text))
    ensures !IsSynced(text) ==>
              Parsed(lang, text) == Parser("", "", lang, None, "", false, false, [], PlainLines(SplitLines(text)), false)
  {
    var lines := SplitLines(text);
    if IsSynced(text) {
      SameFields(lang, text);
      FieldsAreRead(lang, lines);
    } else {
      UnsyncedSteps(lang, lines);
    }
    hide Steps, IsSynced, SplitLines, FieldIs, OffsetIs, SeveralStamps, PlainLines, Trim;
  }

  lemma SameFields(lang: string, text: string)
    ensures var p, p' := Steps(Start(lang), IsSynced(text), SplitLines(text)), Parsed(lang, text);
            && p'.artist == p.artist && p'.title == p.title && p'.lang == p.lang && p'.offset == p.offset
            && p'.repeated == p.repeated && p'.failed == p.failed
  {
    hide Steps, IsSynced, SplitLines, Trim;
  }
}

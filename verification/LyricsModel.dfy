/**
 Lyrics in LRC format: lines of text behind time stamps. Texts are taken as they are after
 sanitizing.
 */
module LyricsModel {
  import opened Options
  import opened Text

  /** Times are in milliseconds; a line of unsynchronized lyrics has none. */
  datatype Line = Line(start: Option<int>, value: string)

  datatype Lyrics = Lyrics(artist: string, title: string, lang: string, lines: seq<Line>, offset: Option<int>, synced: bool)

  // ----- Text -----

  /** strings.Split at newlines. */
  function SplitLines(text: string): seq<string> {
    if text == "" then [""]
    else
      var rest := SplitLines(text[1..]);
      if text[0] == '\n' then [""] + rest else [[text[0]] + rest[0]] + rest[1..]
  }

  function JoinLines(lines: seq<string>): string {
    if lines == [] then ""
    else if |lines| == 1 then lines[0]
    else lines[0] + "\n" + JoinLines(lines[1..])
  }

  // ----- Numbers -----

  predicate IsDigit(c: char) {
    '0' <= c <= '9'
  }

  predicate AllDigits(s: string) {
    forall i :: 0 <= i < |s| ==> IsDigit(s[i])
  }

  function Num(s: string): int
    requires AllDigits(s)
  {
    if s == "" then 0 else Num(s[..|s| - 1]) * 10 + (s[|s| - 1] as int - '0' as int)
  }

  const MAX_INT64 := 0x7FFF_FFFF_FFFF_FFFF

  /** strconv.ParseInt, base 10. */
  function ParseInt64(s: string): Option<int> {
    var digits := if s != "" && (s[0] == '+' || s[0] == '-') then s[1..] else s;
    if digits == "" || !AllDigits(digits) then None
    else
      var n := if s[0] == '-' then -Num(digits) else Num(digits);
      if -MAX_INT64 - 1 <= n <= MAX_INT64 then Some(n) else None
  }

  // ----- Time stamps -----

  /**
   The fraction is read from the second byte on, so it cannot be read behind a character of
   several bytes.
   */
  datatype Match = Match(length: nat, millis: int, readable: bool)

  /**
   The time pattern with h, m, c and f digits for hours, minutes, seconds and fraction; h and
   f may be 0 for absent. The character before the fraction can be any.
   */
  predicate Fits(s: string, h: nat, m: nat, c: nat, f: nat) {
    var a := if h == 0 then 1 else h + 2;
    var b := a + m + 1;
    var d := b + c;
    var e := if f == 0 then d else d + f + 1;
    && e < |s| && s[0] == '[' && s[e] == ']'
    && (h > 0 ==> AllDigits(s[1..h + 1]) && s[h + 1] == ':')
    && AllDigits(s[a..a + m]) && s[a + m] == ':' && AllDigits(s[b..d])
    && (f > 0 ==> s[d] != '\n' && AllDigits(s[d + 1..e]))
  }

  predicate OneByte(c: char) {
    c < '\U{80}'
  }

  /** One digit of a fraction counts for hundreds of milliseconds, two for tens. */
  function Millis(fraction: int, f: nat): int {
    if f == 2 then fraction * 10 else if f == 1 then fraction * 100 else fraction
  }

  function MatchOf(s: string, h: nat, m: nat, c: nat, f: nat): Match
    requires Fits(s, h, m, c, f)
  {
    var a := if h == 0 then 1 else h + 2;
    var b := a + m + 1;
    var d := b + c;
    var e := if f == 0 then d else d + f + 1;
    var hours := if h > 0 then Num(s[1..h + 1]) else 0;
    var millis := if f > 0 then Millis(Num(s[d + 1..e]), f) else 0;
    Match(e + 1, ((hours * 60 + Num(s[a..a + m])) * 60 + Num(s[b..d])) * 1000 + millis, f > 0 ==> OneByte(s[d]))
  }

  /** The choices of the regular expression in its order of preference: more digits first. */
  function MatchFraction(s: string, h: nat, m: nat, c: nat, f: nat): Option<Match>
    decreases f
  {
    if Fits(s, h, m, c, f) then Some(MatchOf(s, h, m, c, f))
    else if f == 0 then None else MatchFraction(s, h, m, c, f - 1)
  }

  function MatchSeconds(s: string, h: nat, m: nat, c: nat): Option<Match>
    decreases c
  {
    if c == 0 then None
    else
      var r := MatchFraction(s, h, m, c, 3);
      if r.Some? then r else MatchSeconds(s, h, m, c - 1)
  }

  function MatchMinutes(s: string, h: nat, m: nat): Option<Match>
    decreases m
  {
    if m == 0 then None
    else
      var r := MatchSeconds(s, h, m, 2);
      if r.Some? then r else MatchMinutes(s, h, m - 1)
  }

  function MatchHours(s: string, h: nat): Option<Match>
    decreases h
  {
    var r := MatchMinutes(s, h, 2);
    if r.Some? then r else if h == 0 then None else MatchHours(s, h - 1)
  }

  /** The time pattern at the start of a text. */
  function MatchTime(s: string): (r: Option<Match>)
    ensures r.Some? ==> 1 <= r.value.length <= |s| && s[0] == '['
  {
    MatchBounds(s, 2);
    MatchHours(s, 2)
  }

  lemma FractionBounds(s: string, h: nat, m: nat, c: nat, f: nat)
    ensures var r := MatchFraction(s, h, m, c, f); r.Some? ==> 1 <= r.value.length <= |s| && s[0] == '['
    decreases f
  {
  }

  lemma SecondsBounds(s: string, h: nat, m: nat, c: nat)
    ensures var r := MatchSeconds(s, h, m, c); r.Some? ==> 1 <= r.value.length <= |s| && s[0] == '['
    decreases c
  {
    FractionBounds(s, h, m, c, 3);
  }

  lemma MinutesBounds(s: string, h: nat, m: nat)
    ensures var r := MatchMinutes(s, h, m); r.Some? ==> 1 <= r.value.length <= |s| && s[0] == '['
    decreases m
  {
    SecondsBounds(s, h, m, 2);
  }

  lemma MatchBounds(s: string, h: nat)
    ensures var r := MatchHours(s, h); r.Some? ==> 1 <= r.value.length <= |s| && s[0] == '['
    decreases h
  {
    MinutesBounds(s, h, 2);
  }

  datatype Stamp = Stamp(from: nat, end: nat, millis: int, readable: bool)

  /** All stamps from a position on, the leftmost first, none overlapping. */
  function Stamps(line: string, pos: nat): (r: seq<Stamp>)
    ensures forall i :: 0 <= i < |r| ==> pos <= r[i].from < r[i].end <= |line|
    ensures forall i, j :: 0 <= i < j < |r| ==> r[i].end <= r[j].from
    decreases |line| - pos
  {
    if pos >= |line| then []
    else
      var m := MatchTime(line[pos..]);
      if m.Some? then [Stamp(pos, pos + m.value.length, m.value.millis, m.value.readable)] + Stamps(line, pos + m.value.length)
      else Stamps(line, pos + 1)
  }

  /** How many stamps stand before any text. */
  function Leading(line: string, stamps: seq<Stamp>, n: nat): (k: nat)
    requires n <= |stamps|
    requires forall i :: 0 <= i < |stamps| ==> stamps[i].from < stamps[i].end <= |line|
    requires forall i, j :: 0 <= i < j < |stamps| ==> stamps[i].end <= stamps[j].from
    ensures n <= k <= |stamps|
    decreases |stamps| - n
  {
    if n == |stamps| || (n > 0 && Trim(line[stamps[n - 1].end..stamps[n].from]) != "") then n
    else Leading(line, stamps, n + 1)
  }

  // ----- Tags -----

  datatype Tag = Artist | Title | Offset | Language

  function TagName(t: Tag): string {
    match t
    case Artist => "ar"
    case Title => "ti"
    case Offset => "offset"
    case Language => "lang"
  }

  /** Up to the first closing bracket, if there is one. */
  function UntilBracket(s: string): Option<string> {
    if s == "" then None
    else if s[0] == ']' then Some("")
    else
      var rest := UntilBracket(s[1..]);
      if rest.None? then None else Some([s[0]] + rest.value)
  }

  function TagAt(s: string, t: Tag): Option<string> {
    var prefix := "[" + TagName(t) + ":";
    if prefix <= s then
      var value := UntilBracket(s[|prefix|..]);
      if value.Some? && value.value != "" then value else None
    else None
  }

  /** The leftmost tag of a line; it need not be at the beginning. */
  function FindTag(line: string): Option<(Tag, string)> {
    if line == "" then None
    else if TagAt(line, Artist).Some? then Some((Artist, TagAt(line, Artist).value))
    else if TagAt(line, Title).Some? then Some((Title, TagAt(line, Title).value))
    else if TagAt(line, Offset).Some? then Some((Offset, TagAt(line, Offset).value))
    else if TagAt(line, Language).Some? then Some((Language, TagAt(line, Language).value))
    else FindTag(line[1..])
  }

  // ----- Parsing -----

  /** The variables of the loop over the lines. */
  datatype Parser = Parser(
    artist: string, title: string, lang: string, offset: Option<int>,
    prior: string, valid: bool, repeated: bool, times: seq<int>, lines: seq<Line>, failed: bool)

  function Tagged(p: Parser, t: Tag, value: string): Parser {
    var value := Trim(value);
    match t
    case Artist => p.(artist := value)
    case Title => p.(title := value)
    case Language => p.(lang := value)
    case Offset => if ParseInt64(value).Some? then p.(offset := ParseInt64(value)) else p
  }

  function Entries(times: seq<int>, value: string): seq<Line> {
    seq(|times|, i requires 0 <= i < |times| => Line(Some(times[i]), value))
  }

  /** Writes out the line in hand, once for every time of its. */
  function Flush(p: Parser): Parser {
    if p.valid then p.(lines := p.lines + Entries(p.times, Trim(p.prior)), times := []) else p
  }

  function TimesOf(stamps: seq<Stamp>, k: nat): seq<int>
    requires k <= |stamps|
  {
    seq(k, i requires 0 <= i < k => stamps[i].millis)
  }

  predicate AllReadable(stamps: seq<Stamp>, k: nat)
    requires k <= |stamps|
  {
    forall i :: 0 <= i < k ==> stamps[i].readable
  }

  function SyncedStep(p: Parser, line: string): Parser {
    var tag := FindTag(line);
    if tag.Some? then Tagged(p, tag.value.0, tag.value.1)
    else
      var stamps := Stamps(line, 0);
      var p := p.(repeated := p.repeated || |stamps| > 1);
      if stamps == [] || stamps[0].from != 0 then (if p.valid then p.(prior := p.prior + "\n" + line) else p)
      else
        var k := Leading(line, stamps, 1);
        var p := Flush(p);
        if !AllReadable(stamps, k) then p.(failed := true)
        else p.(times := p.times + TimesOf(stamps, k), prior := Trim(line[stamps[k - 1].end..]), valid := true)
  }

  /** A stamp that cannot be read ends the loop. */
  function Step(p: Parser, synced: bool, raw: string): Parser {
    var line := Trim(raw);
    if p.failed then p
    else if line == "" then (if p.valid then p.(prior := p.prior + "\n") else p)
    else if synced then SyncedStep(p, line)
    else p.(lines := p.lines + [Line(None, line)])
  }

  function Steps(p: Parser, synced: bool, lines: seq<string>): Parser {
    if lines == [] then p
    else Step(Steps(p, synced, lines[..|lines| - 1]), synced, lines[|lines| - 1])
  }

  predicate SpaceInPattern(c: char) {
    c == '\t' || c == '\n' || c == '\U{0C}' || c == '\r' || c == ' '
  }

  /** White space, and then a stamp. */
  predicate StampAfterSpace(text: string) {
    MatchTime(text).Some? || (text != "" && SpaceInPattern(text[0]) && StampAfterSpace(text[1..]))
  }

  /** Some line starts with a stamp. */
  predicate IsSynced(text: string) {
    StampAfterSpace(text) || exists i :: 0 <= i < |text| && text[i] == '\n' && StampAfterSpace(text[i + 1..])
  }

  function Start(lang: string): Parser {
    Parser("", "", lang, None, "", false, false, [], [], false)
  }

  /** All lines read and the last one written out; the lines are not yet sorted. */
  function Parsed(lang: string, text: string): Parser {
    Flush(Steps(Start(lang), IsSynced(text), SplitLines(text)))
  }
}

/**
 What the rules of the walk come to: the patterns of an ignore file, what they decide, the
 names left out, the contents of an entry, and the entries of a walk in their order.
 */
module WalkRules {
  import opened Options
  import opened Text
  import opened WalkModel
  import opened WalkSelective

  // ----- The patterns of an ignore file -----

  /** Behind white space at its start the line has something other than a comment. */
  predicate HasPattern(line: string) {
    exists i :: 0 <= i < |line| && Blank(line[..i]) && line[i] !in SPACES && line[i] != '#'
  }

  /** The lines at the positions picked, all of them that have a pattern, in their order. */
  ghost predicate Picks(picks: seq<nat>, lines: seq<string>) {
    && (forall i, j :: 0 <= i < j < |picks| ==> picks[i] < picks[j])
    && (forall k :: k in picks <==> 0 <= k < |lines| && HasPattern(lines[k]))
  }

  ghost predicate AreTexts(patterns: seq<Pattern>, picks: seq<nat>, lines: seq<string>) {
    && |patterns| == |picks|
    && forall i :: 0 <= i < |picks| ==> picks[i] < |lines| && patterns[i].text == Trim(lines[picks[i]])
  }

  ghost predicate PatternsAreLines(patterns: seq<Pattern>, picks: seq<nat>, lines: seq<string>) {
    Picks(picks, lines) && AreTexts(patterns, picks, lines)
  }

  lemma NothingIn(line: string)
    requires Blank(line)
    ensures !HasPattern(line)
  {
  }

  lemma BlankUpTo(line: string, n: nat)
    requires n <= |line| && Blank(line[..n])
    ensures forall k :: 0 <= k < n ==> line[k] in SPACES
  {
    assert forall k :: 0 <= k < n ==> line[..n][k] == line[k];
  }

  lemma StartsAt(line: string, n: nat)
    requires n < |line| && Blank(line[..n]) && line[n] !in SPACES
    ensures HasPattern(line) <==> line[n] != '#'
  {
    if HasPattern(line) {
      var i :| 0 <= i < |line| && Blank(line[..i]) && line[i] !in SPACES && line[i] != '#';
      BlankUpTo(line, i);
      BlankUpTo(line, n);
    }
  }

  lemma TwoBlanks(a: string, b: string)
    requires Blank(a) && Blank(b)
    ensures Blank(a + b)
  {
  }

  lemma KeptLine(line: string)
    ensures Trim(line) == "" || Trim(line)[0] == '#' <==> !HasPattern(line)
  {
    TrimSplits(line);
    hide Trim, HasPattern, Blank;
    var before, after :| line == before + Trim(line) + after && Surrounds(before, Trim(line), after);
    if Trim(line) == "" {
      assert line == before + after;
      TwoBlanks(before, after);
      NothingIn(line);
    } else {
      assert line[..|before|] == before;
      assert line[|before|] == Trim(line)[0];
      StartsAt(line, |before|);
    }
  }

  lemma PickMore(picks: seq<nat>, lines: seq<string>, line: string)
    requires Picks(picks, lines)
    ensures Picks(if HasPattern(line) then picks + [|lines|] else picks, lines + [line])
  {
    hide HasPattern;
    var longer, more := lines + [line], if HasPattern(line) then picks + [|lines|] else picks;
    assert forall i :: 0 <= i < |picks| ==> picks[i] in picks;
    forall k ensures k in more <==> 0 <= k < |longer| && HasPattern(longer[k]) {
      assert k in more <==> k in picks || (k == |lines| && HasPattern(line));
      if 0 <= k < |lines| {
        assert longer[k] == lines[k];
      }
    }
  }

  lemma TextsMore(patterns: seq<Pattern>, picks: seq<nat>, lines: seq<string>, line: string)
    requires AreTexts(patterns, picks, lines)
    ensures AreTexts(patterns, picks, lines + [line])
    ensures AreTexts(patterns + [Pattern(Trim(line))], picks + [|lines|], lines + [line])
  {
    hide Trim;
    assert forall k :: 0 <= k < |lines| ==> (lines + [line])[k] == lines[k];
  }

  lemma PickOneMore(patterns: seq<Pattern>, picks: seq<nat>, lines: seq<string>, line: string)
    requires PatternsAreLines(patterns, picks, lines)
    ensures if HasPattern(line) then
              PatternsAreLines(patterns + [Pattern(Trim(line))], picks + [|lines|], lines + [line])
            else
              PatternsAreLines(patterns, picks, lines + [line])
  {
    hide HasPattern, Trim, AreTexts, Picks;
    PickMore(picks, lines, line);
    TextsMore(patterns, picks, lines, line);
  }

  lemma OneLineMore(lines: seq<string>, line: string)
    ensures PatternsIn(lines + [line]) == PatternsIn(lines) + if HasPattern(line) then [Pattern(Trim(line))] else []
  {
    KeptLine(line);
    hide HasPattern, Trim;
    assert (lines + [line])[..|lines|] == lines;
  }

  /** Every line with a pattern gives its trimmed text, in order; all other lines give nothing. */
  lemma {:induction false} PatternsInLines(lines: seq<string>)
    ensures exists picks: seq<nat> :: PatternsAreLines(PatternsIn(lines), picks, lines)
  {
    if lines == [] {
      assert PatternsAreLines(PatternsIn(lines), [], lines);
    } else {
      hide PatternsAreLines, PatternsIn, HasPattern, Trim;
      var front, line := lines[..|lines| - 1], lines[|lines| - 1];
      PatternsInLines(front);
      var picks: seq<nat> :| PatternsAreLines(PatternsIn(front), picks, front);
      assert lines == front + [line];
      OneLineMore(front, line);
      PickOneMore(PatternsIn(front), picks, front, line);
      if !HasPattern(line) {
        assert PatternsIn(lines) == PatternsIn(front);
      }
    }
  }

  lemma PicksSome(patterns: seq<Pattern>, picks: seq<nat>, lines: seq<string>)
    requires PatternsAreLines(patterns, picks, lines)
    ensures patterns == [] <==> forall k :: 0 <= k < |lines| ==> !HasPattern(lines[k])
  {
    hide HasPattern, Trim;
    if patterns != [] {
      assert picks[0] in picks;
    }
  }

  /** No file, or none that can be opened, ignores nothing; one without patterns ignores everything. */
  lemma PatternsOfFile(f: IgnoreFile)
    ensures !f.Content? ==> PatternsOf(f) == []
    ensures f.Content? && (f.truncated || exists k :: 0 <= k < |f.lines| && HasPattern(f.lines[k])) ==>
              exists picks: seq<nat> :: PatternsAreLines(PatternsOf(f), picks, f.lines)
    ensures f.Content? && !f.truncated && (forall k :: 0 <= k < |f.lines| ==> !HasPattern(f.lines[k])) ==>
              PatternsOf(f) == [Pattern("**/*")]
  {
    hide HasPattern, PatternsAreLines, PatternsIn;
    if f.Content? {
      PatternsInLines(f.lines);
      var picks: seq<nat> :| PatternsAreLines(PatternsIn(f.lines), picks, f.lines);
      PicksSome(PatternsIn(f.lines), picks, f.lines);
      if f.truncated || PatternsIn(f.lines) != [] {
        assert PatternsAreLines(PatternsOf(f), picks, f.lines);
      }
    }
  }

  // ----- What the patterns decide -----

  /** The pattern has a say on the path, and none behind it has. */
  ghost predicate Decides(env: Env, patterns: seq<Pattern>, path: Path, i: nat) {
    && i < |patterns| && !env.effect(patterns[i], path).Keep?
    && forall j :: i < j < |patterns| ==> env.effect(patterns[j], path).Keep?
  }

  /** Without such a pattern there is no decision. */
  lemma {:induction false} DecisionIs(env: Env, patterns: seq<Pattern>, path: Path)
    ensures Decision(env, patterns, path).Keep? <==> forall i :: 0 <= i < |patterns| ==> env.effect(patterns[i], path).Keep?
    ensures forall i: nat :: Decides(env, patterns, path, i) ==> Decision(env, patterns, path) == env.effect(patterns[i], path)
    ensures !Decision(env, patterns, path).Keep? ==> exists i: nat :: Decides(env, patterns, path, i)
  {
    if patterns != [] {
      var n := |patterns| - 1;
      var front := patterns[..n];
      if env.effect(patterns[n], path).Keep? {
        DecisionIs(env, front, path);
        assert forall i :: 0 <= i < n ==> front[i] == patterns[i];
        forall i: nat ensures Decides(env, patterns, path, i) <==> Decides(env, front, path, i) {
          assert Decides(env, patterns, path, i) ==> i != n;
        }
      } else {
        assert Decides(env, patterns, path, n);
      }
    }
  }

  /** A path below the root is ignored if and only if the last pattern with a say on it says so. */
  lemma IgnoredIff(env: Env, patterns: seq<Pattern>, path: Path)
    ensures Ignored(env, patterns, path)
            <==> path != [] && exists i: nat :: Decides(env, patterns, path, i) && env.effect(patterns[i], path).Set?
  {
    hide Decision;
    DecisionIs(env, patterns, path);
  }

  // ----- Names -----

  /** A name that starts with one dot. */
  lemma EntryIgnoredIff(name: Name)
    ensures EntryIgnored(name) <==> 0 < |name.text| && name.text[0] == '.' && (|name.text| == 1 || name.text[1] != '.')
  {
  }

  /** The same letter, small or capital, or one of the two other letters that fold into s and k. */
  predicate SameLetter(a: char, b: char) {
    || a == b
    || ('a' <= a <= 'z' && 'A' <= b <= 'Z' && a as int - 'a' as int == b as int - 'A' as int)
    || ('A' <= a <= 'Z' && 'a' <= b <= 'z' && a as int - 'A' as int == b as int - 'a' as int)
    || (a in {'s', 'S'} && b == '\U{17F}') || (a in {'k', 'K'} && b == '\U{212A}')
  }

  predicate SameText(a: string, b: string) {
    |a| == |b| && forall i :: 0 <= i < |a| ==> SameLetter(a[i], b[i])
  }

  const SPECIAL := {"$RECYCLE.BIN", "#snapshot", "@Recycle", "@Recently-Snapshot", ".streams", "lost+found"}

  lemma FoldIs(a: string, b: string)
    requires forall i :: 0 <= i < |a| ==> a[i] < '\U{80}'
    ensures EqualFold(a, b) <==> SameText(a, b)
  {
    if EqualFold(a, b) {
      forall i | 0 <= i < |a| ensures SameLetter(a[i], b[i]) {
        assert Lower(a[i]) == Lower(b[i]);
      }
    }
  }

  /** Hidden folders, and the special ones in any spelling of their letters. */
  lemma DirIgnoredIff(name: Name)
    ensures DirIgnored(name) <==> EntryIgnored(name) || exists special :: special in SPECIAL && SameText(special, name.text)
  {
    hide EqualFold, SameText, EntryIgnored;
    forall i | 0 <= i < |IGNORED_DIRS| ensures EqualFold(IGNORED_DIRS[i], name.text) <==> SameText(IGNORED_DIRS[i], name.text) {
      FoldIs(IGNORED_DIRS[i], name.text);
    }
    assert IGNORED_DIRS[0] == "$RECYCLE.BIN" && IGNORED_DIRS[1] == "#snapshot" && IGNORED_DIRS[2] == "@Recycle";
    assert IGNORED_DIRS[3] == "@Recently-Snapshot" && IGNORED_DIRS[4] == ".streams" && IGNORED_DIRS[5] == "lost+found";
  }

  // ----- What an entry says -----

  /** The directory entry counts as a file of the folder: neither left out nor walked into. */
  predicate Counted(env: Env, patterns: seq<Pattern>, path: Path, n: Node) {
    !Ignored(env, patterns, path + [n.name]) && !EntryIgnored(n.name) && !n.BrokenLink? && !(n.Dir? && !DirIgnored(n.name) && n.readable)
  }

  predicate WalkedInto(env: Env, patterns: seq<Pattern>, path: Path, n: Node) {
    !Ignored(env, patterns, path + [n.name]) && !EntryIgnored(n.name) && n.Dir? && !DirIgnored(n.name) && n.readable
  }

  predicate IsKind(env: Env, patterns: seq<Pattern>, path: Path, n: Node, kind: Kind) {
    Counted(env, patterns, path, n) && env.kind(n.name) == kind
  }

  /** The names of all files of the kind. */
  ghost predicate AreNames(env: Env, patterns: seq<Pattern>, path: Path, names: set<Name>, nodes: seq<Node>, kind: Kind) {
    forall name :: name in names <==> exists n :: n in nodes && IsKind(env, patterns, path, n, kind) && n.name == name
  }

  function Select(nodes: seq<Node>, chosen: Node -> bool): seq<Node> {
    if nodes == [] then []
    else Select(nodes[..|nodes| - 1], chosen) + if chosen(nodes[|nodes| - 1]) then [nodes[|nodes| - 1]] else []
  }

  /** The latest of a first time and the times of all files counted. */
  ghost predicate IsLatest(env: Env, patterns: seq<Pattern>, path: Path, latest: int, first: int, nodes: seq<Node>) {
    && first <= latest
    && (forall n :: n in nodes && Counted(env, patterns, path, n) ==> n.info.Some? && n.info.value <= latest)
    && (latest == first || exists n :: n in nodes && Counted(env, patterns, path, n) && n.info == Some(latest))
  }

  ghost predicate IsLastImage(env: Env, patterns: seq<Pattern>, path: Path, nodes: seq<Node>, i: nat) {
    && i < |nodes| && IsKind(env, patterns, path, nodes[i], Image)
    && forall j :: i < j < |nodes| ==> !IsKind(env, patterns, path, nodes[j], Image)
  }

  /** Zero stands for a time not set, and no time before it is taken. */
  ghost predicate ImageTime(
    env: Env, patterns: seq<Pattern>, path: Path, updatedAt: int, latest: int, first: int, nodes: seq<Node>, i: nat)
    requires i < |nodes|
  {
    IsLatest(env, patterns, path, latest, first, nodes[..i + 1]) && updatedAt == if latest < 0 then 0 else latest
  }

  /** What is known of the images' time is the time of the folder as it was at the last image. */
  ghost predicate ImagesAt(env: Env, patterns: seq<Pattern>, path: Path, updatedAt: int, first: int, nodes: seq<Node>) {
    && ((forall n :: n in nodes ==> !IsKind(env, patterns, path, n, Image)) ==> updatedAt == 0)
    && (forall i: nat :: IsLastImage(env, patterns, path, nodes, i) ==>
          exists t :: ImageTime(env, patterns, path, updatedAt, t, first, nodes, i))
  }

  /** What one more directory entry does to the entry of the folder. */
  lemma OneMoreLoaded(env: Env, patterns: seq<Pattern>, sofar: Loaded, n: Node)
    requires sofar.Loaded? && LoadOne(env, patterns, sofar, n).Loaded?
    ensures var r, path := LoadOne(env, patterns, sofar, n), sofar.entry.path;
            && r.entry.path == path
            && r.entry.audio == sofar.entry.audio + (if IsKind(env, patterns, path, n, Audio) then {n.name} else {})
            && r.entry.images == sofar.entry.images + (if IsKind(env, patterns, path, n, Image) then {n.name} else {})
            && r.entry.playlists == sofar.entry.playlists + (if IsKind(env, patterns, path, n, Playlist) then 1 else 0)
            && (Counted(env, patterns, path, n) ==> n.info.Some?)
            && r.entry.modTime == if Counted(env, patterns, path, n) then Max(sofar.entry.modTime, n.info.value) else sofar.entry.modTime
  {
    hide Ignored, EntryIgnored, DirIgnored;
  }

  lemma NotFailedBefore(env: Env, patterns: seq<Pattern>, sofar: Loaded, n: Node)
    ensures LoadOne(env, patterns, sofar, n).Loaded? ==> sofar.Loaded?
  {
    hide Ignored, EntryIgnored, DirIgnored;
  }

  lemma {:induction false} LoadFailsIff(env: Env, patterns: seq<Pattern>, path: Path, time: int, nodes: seq<Node>)
    ensures LoadAll(env, patterns, NewEntry(path, time), nodes).Failed?
            <==> exists n :: n in nodes && Counted(env, patterns, path, n) && n.info.None?
  {
    hide Ignored, EntryIgnored, DirIgnored;
    if nodes != [] {
      var front, last := nodes[..|nodes| - 1], nodes[|nodes| - 1];
      LoadFailsIff(env, patterns, path, time, front);
      assert forall n :: n in nodes <==> n in front || n == last;
    }
  }

  lemma NamesMore(env: Env, patterns: seq<Pattern>, path: Path, names: set<Name>, nodes: seq<Node>, n: Node, kind: Kind)
    requires AreNames(env, patterns, path, names, nodes, kind)
    ensures AreNames(
              env, patterns, path, names + (if IsKind(env, patterns, path, n, kind) then {n.name} else {}), nodes + [n], kind)
  {
    hide IsKind;
    assert forall m :: m in nodes + [n] <==> m in nodes || m == n;
  }

  lemma {:induction false} LoadNames(env: Env, patterns: seq<Pattern>, path: Path, time: int, nodes: seq<Node>)
    ensures var r := LoadAll(env, patterns, NewEntry(path, time), nodes);
            r.Loaded? ==>
              && AreNames(env, patterns, path, r.entry.audio, nodes, Audio)
              && AreNames(env, patterns, path, r.entry.images, nodes, Image)
  {
    if nodes != [] {
      var front, last := nodes[..|nodes| - 1], nodes[|nodes| - 1];
      var sofar := LoadAll(env, patterns, NewEntry(path, time), front);
      if LoadAll(env, patterns, NewEntry(path, time), nodes).Loaded? {
        hide IsKind, LoadOne, AreNames;
        LoadNames(env, patterns, path, time, front);
        NotFailedBefore(env, patterns, sofar, last);
        OneMoreLoaded(env, patterns, sofar, last);
        assert nodes == front + [last];
        NamesMore(env, patterns, path, sofar.entry.audio, front, last, Audio);
        NamesMore(env, patterns, path, sofar.entry.images, front, last, Image);
      }
    }
  }

  lemma {:induction false} LoadPlaylists(env: Env, patterns: seq<Pattern>, path: Path, time: int, nodes: seq<Node>)
    ensures var r := LoadAll(env, patterns, NewEntry(path, time), nodes);
            r.Loaded? ==> r.entry.playlists == |Select(nodes, n => IsKind(env, patterns, path, n, Playlist))|
  {
    if nodes != [] {
      var front, last := nodes[..|nodes| - 1], nodes[|nodes| - 1];
      LoadPlaylists(env, patterns, path, time, front);
      if LoadAll(env, patterns, NewEntry(path, time), nodes).Loaded? {
        NotFailedBefore(env, patterns, LoadAll(env, patterns, NewEntry(path, time), front), last);
        OneMoreLoaded(env, patterns, LoadAll(env, patterns, NewEntry(path, time), front), last);
      }
      hide IsKind, LoadOne;
    }
  }

  lemma {:induction false} LoadChildren(env: Env, patterns: seq<Pattern>, path: Path, time: int, nodes: seq<Node>)
    ensures var r := LoadAll(env, patterns, NewEntry(path, time), nodes);
            r.Loaded? ==>
              && r.children == Select(nodes, n => WalkedInto(env, patterns, path, n))
              && r.entry.subFolders == |r.children|
  {
    hide Ignored, EntryIgnored, DirIgnored;
    if nodes != [] {
      LoadChildren(env, patterns, path, time, nodes[..|nodes| - 1]);
    }
  }

  lemma LatestOfMore(env: Env, patterns: seq<Pattern>, path: Path, latest: int, first: int, nodes: seq<Node>, n: Node)
    requires IsLatest(env, patterns, path, latest, first, nodes)
    ensures !Counted(env, patterns, path, n) ==> IsLatest(env, patterns, path, latest, first, nodes + [n])
    ensures Counted(env, patterns, path, n) && n.info.Some? ==>
              IsLatest(env, patterns, path, if latest < n.info.value then n.info.value else latest, first, nodes + [n])
  {
    hide Counted;
    assert forall m :: m in nodes + [n] <==> m in nodes || m == n;
  }

  lemma {:induction false} LoadTimes(env: Env, patterns: seq<Pattern>, path: Path, time: int, nodes: seq<Node>)
    ensures var r := LoadAll(env, patterns, NewEntry(path, time), nodes);
            r.Loaded? ==> IsLatest(env, patterns, path, r.entry.modTime, time, nodes)
  {
    if nodes != [] {
      hide Counted, IsKind, LoadOne, IsLatest;
      var front, last := nodes[..|nodes| - 1], nodes[|nodes| - 1];
      LoadTimes(env, patterns, path, time, front);
      var sofar := LoadAll(env, patterns, NewEntry(path, time), front);
      if LoadAll(env, patterns, NewEntry(path, time), nodes).Loaded? {
        NotFailedBefore(env, patterns, sofar, last);
        OneMoreLoaded(env, patterns, sofar, last);
        LatestOfMore(env, patterns, path, sofar.entry.modTime, time, front, last);
        assert nodes == front + [last];
      }
    }
  }

  lemma SameUpTo(env: Env, patterns: seq<Pattern>, path: Path, updatedAt: int, first: int, nodes: seq<Node>, n: Node, i: nat)
    requires i < |nodes|
    ensures forall t ::
              ImageTime(env, patterns, path, updatedAt, t, first, nodes, i) == ImageTime(env, patterns, path, updatedAt, t, first, nodes + [n], i)
  {
    hide IsLatest;
    assert (nodes + [n])[..i + 1] == nodes[..i + 1];
  }

  lemma NoMoreImages(env: Env, patterns: seq<Pattern>, path: Path, updatedAt: int, first: int, nodes: seq<Node>, n: Node)
    requires ImagesAt(env, patterns, path, updatedAt, first, nodes) && !IsKind(env, patterns, path, n, Image)
    ensures ImagesAt(env, patterns, path, updatedAt, first, nodes + [n])
  {
    hide IsKind, ImageTime, IsLatest;
    var more := nodes + [n];
    assert forall m :: m in nodes ==> m in more;
    forall i: nat | IsLastImage(env, patterns, path, more, i)
      ensures exists t :: ImageTime(env, patterns, path, updatedAt, t, first, more, i)
    {
      assert i < |nodes| && more[i] == nodes[i];
      assert forall j :: 0 <= j < |nodes| ==> nodes[j] == more[j];
      assert IsLastImage(env, patterns, path, nodes, i);
      SameUpTo(env, patterns, path, updatedAt, first, nodes, n, i);
    }
  }

  lemma OneMoreImage(env: Env, patterns: seq<Pattern>, path: Path, latest: int, first: int, nodes: seq<Node>, n: Node)
    requires IsLatest(env, patterns, path, latest, first, nodes + [n]) && IsKind(env, patterns, path, n, Image)
    ensures ImagesAt(env, patterns, path, if latest < 0 then 0 else latest, first, nodes + [n])
  {
    hide IsKind, IsLatest;
    var more := nodes + [n];
    var updatedAt := if latest < 0 then 0 else latest;
    assert more[|nodes|] == n && n in more && more[..|nodes| + 1] == more;
    assert ImageTime(env, patterns, path, updatedAt, latest, first, more, |nodes|);
    forall i: nat | IsLastImage(env, patterns, path, more, i) ensures i == |nodes| {
    }
  }

  /** The time of the images never passes the time of the folder. */
  lemma {:induction false} ImagesAreOlder(env: Env, patterns: seq<Pattern>, path: Path, time: int, nodes: seq<Node>)
    ensures var r := LoadAll(env, patterns, NewEntry(path, time), nodes);
            r.Loaded? ==> r.entry.imagesUpdatedAt <= if r.entry.modTime < 0 then 0 else r.entry.modTime
    ensures var r := LoadAll(env, patterns, NewEntry(path, time), nodes);
            r.Loaded? ==> 0 <= r.entry.imagesUpdatedAt
  {
    hide Ignored, EntryIgnored, DirIgnored;
    if nodes != [] {
      ImagesAreOlder(env, patterns, path, time, nodes[..|nodes| - 1]);
    }
  }

  lemma {:induction false} LoadImages(env: Env, patterns: seq<Pattern>, path: Path, time: int, nodes: seq<Node>)
    ensures var r := LoadAll(env, patterns, NewEntry(path, time), nodes);
            r.Loaded? ==> ImagesAt(env, patterns, path, r.entry.imagesUpdatedAt, time, nodes)
  {
    if nodes != [] {
      hide Ignored, EntryIgnored, DirIgnored, ImagesAt, IsLatest;
      var front, last := nodes[..|nodes| - 1], nodes[|nodes| - 1];
      LoadImages(env, patterns, path, time, front);
      LoadTimes(env, patterns, path, time, nodes);
      ImagesAreOlder(env, patterns, path, time, front);
      var sofar, r := LoadAll(env, patterns, NewEntry(path, time), front), LoadAll(env, patterns, NewEntry(path, time), nodes);
      assert nodes == front + [last];
      if r.Loaded? {
        if IsKind(env, patterns, path, last, Image) {
          OneMoreImage(env, patterns, path, r.entry.modTime, time, front, last);
        } else {
          NoMoreImages(env, patterns, path, sofar.entry.imagesUpdatedAt, time, front, last);
        }
      }
    }
  }

  /**
   A folder's entry holds the names of its audio and image files, the numbers of its playlists
   and of the folders walked into, the time of its latest file, and that time as it was at its
   last image; one file that cannot be inspected spoils all of it.
   */
  lemma LoadDescribes(env: Env, patterns: seq<Pattern>, path: Path, time: int, nodes: seq<Node>)
    ensures var r := LoadAll(env, patterns, NewEntry(path, time), nodes);
            && (r.Failed? <==> exists n :: n in nodes && Counted(env, patterns, path, n) && n.info.None?)
            && (r.Loaded? ==>
                  && r.entry.path == path
                  && AreNames(env, patterns, path, r.entry.audio, nodes, Audio)
                  && AreNames(env, patterns, path, r.entry.images, nodes, Image)
                  && r.entry.playlists == |Select(nodes, n => IsKind(env, patterns, path, n, Playlist))|
                  && r.children == Select(nodes, n => WalkedInto(env, patterns, path, n))
                  && r.entry.subFolders == |r.children|
                  && IsLatest(env, patterns, path, r.entry.modTime, time, nodes)
                  && ImagesAt(env, patterns, path, r.entry.imagesUpdatedAt, time, nodes))
  {
    hide LoadAll, Counted, IsKind, WalkedInto, Select, IsLatest, ImagesAt, AreNames;
    LoadFailsIff(env, patterns, path, time, nodes);
    LoadNames(env, patterns, path, time, nodes);
    LoadPlaylists(env, patterns, path, time, nodes);
    LoadChildren(env, patterns, path, time, nodes);
    LoadTimes(env, patterns, path, time, nodes);
    LoadImages(env, patterns, path, time, nodes);
  }

  /** A folder is loaded by its contents; a file is loaded as an empty folder. */
  lemma LoadIs(env: Env, patterns: seq<Pattern>, node: Node, path: Path)
    ensures node.Dir? && node.stat.Some? && node.readable ==>
              Load(env, patterns, node, path) == LoadAll(env, patterns, FolderEntry(path, node.stat.value, {}, {}, 0, 0, 0), node.children)
    ensures node.File? && node.info.Some? ==>
              Load(env, patterns, node, path) == Loaded(FolderEntry(path, node.info.value, {}, {}, 0, 0, 0), [])
    ensures node.BrokenLink? || (node.File? && node.info.None?) || (node.Dir? && (node.stat.None? || !node.readable)) ==>
              Load(env, patterns, node, path).Failed?
  {
  }

  // ----- The entries of a walk -----

  /** The listing of the folder has the one name before the other. */
  ghost predicate ListedBefore(nodes: seq<Node>, a: Name, b: Name) {
    exists i, j :: 0 <= i < j < |nodes| && nodes[i].name == a && nodes[j].name == b
  }

  /** Of two paths below a folder: what is deeper comes first, and otherwise the listing decides. */
  ghost predicate Earlier(node: Node, a: Path, b: Path)
    decreases |a|
  {
    if a == [] then false
    else if b == [] then true
    else if a[0] != b[0] then node.Dir? && ListedBefore(node.children, a[0], b[0])
    else Child(node, a[0]).Some? && Earlier(Child(node, a[0]).value, a[1..], b[1..])
  }

  function Rest(path: Path, e: FolderEntry): Path
    requires path <= e.path
  {
    e.path[|path|..]
  }

  /** All entries are below the path, and every one is earlier than those behind it. */
  ghost predicate InOrder(node: Node, path: Path, entries: seq<FolderEntry>) {
    && (forall e :: e in entries ==> path <= e.path)
    && forall i, j :: 0 <= i < j < |entries| ==> Earlier(node, Rest(path, entries[i]), Rest(path, entries[j]))
  }

  ghost predicate Listed(nodes: seq<Node>, children: seq<Node>) {
    forall k, l :: 0 <= k < l < |children| ==> ListedBefore(nodes, children[k].name, children[l].name)
  }

  lemma {:induction false} LoadedListed(env: Env, patterns: seq<Pattern>, entry: FolderEntry, nodes: seq<Node>)
    ensures var r := LoadAll(env, patterns, entry, nodes); r.Loaded? ==> Listed(nodes, r.children)
  {
    if nodes != [] {
      hide Ignored, EntryIgnored, DirIgnored;
      var front, last := nodes[..|nodes| - 1], nodes[|nodes| - 1];
      LoadedListed(env, patterns, entry, front);
      var sofar, r := LoadAll(env, patterns, entry, front), LoadAll(env, patterns, entry, nodes);
      if r.Loaded? {
        forall k, l | 0 <= k < l < |r.children| ensures ListedBefore(nodes, r.children[k].name, r.children[l].name) {
          if l < |sofar.children| {
            assert ListedBefore(front, sofar.children[k].name, sofar.children[l].name);
          } else {
            assert sofar.children[k] in front;
            var i :| 0 <= i < |front| && front[i] == sofar.children[k];
            assert nodes[i].name == r.children[k].name && nodes[|nodes| - 1].name == r.children[l].name;
          }
        }
      }
    }
  }

  /** What is in order below a child is in order below its folder. */
  lemma InOrderBelowChild(node: Node, path: Path, child: Node, entries: seq<FolderEntry>)
    requires Child(node, child.name) == Some(child) && InOrder(child, path + [child.name], entries)
    ensures InOrder(node, path, entries)
  {
    var below := path + [child.name];
    forall i, j | 0 <= i < j < |entries| ensures Earlier(node, Rest(path, entries[i]), Rest(path, entries[j])) {
      assert entries[i] in entries && entries[j] in entries;
      assert Earlier(child, Rest(below, entries[i]), Rest(below, entries[j]));
      RestBelow(path, child.name, entries[i]);
      RestBelow(path, child.name, entries[j]);
    }
  }

  lemma RestBelow(path: Path, name: Name, e: FolderEntry)
    requires path + [name] <= e.path
    ensures path <= e.path && Rest(path, e) != []
    ensures Rest(path, e)[0] == name && Rest(path, e)[1..] == Rest(path + [name], e)
  {
    assert e.path[|path|] == (path + [name])[|path|];
  }

  /** The entries of one more child, behind those of the children listed before it. */
  lemma InOrderSum(node: Node, path: Path, a: seq<FolderEntry>, b: seq<FolderEntry>, front: seq<Node>, last: Node)
    requires node.Dir? && InOrder(node, path, a) && InOrder(node, path, b)
    requires forall e :: e in a ==> exists c :: c in front && path + [c.name] <= e.path
    requires forall e :: e in b ==> path + [last.name] <= e.path
    requires forall c :: c in front ==> c.name != last.name && ListedBefore(node.children, c.name, last.name)
    ensures InOrder(node, path, a + b)
  {
    hide ListedBefore;
    forall i, j | 0 <= i < j < |a + b|
      ensures Earlier(node, Rest(path, (a + b)[i]), Rest(path, (a + b)[j]))
    {
      if i < |a| <= j {
        var e, f := a[i], b[j - |a|];
        assert e in a && f in b;
        var c :| c in front && path + [c.name] <= e.path;
        RestBelow(path, c.name, e);
        RestBelow(path, last.name, f);
      }
    }
  }

  /** Every folder is reported after all folders below it, and once; the listing orders the others. */
  lemma {:induction false} WalkIsInOrder(env: Env, patterns: seq<Pattern>, node: Node, path: Path)
    requires DistinctNames(node)
    ensures InOrder(node, path, Walk(env, patterns, node, path))
    decreases node, Width(node) + 1
  {
    hide InOrder;
    var inForce := patterns + Own(node);
    var loaded := Load(env, inForce, node, path);
    WalkUnfolds(env, patterns, node, path);
    if loaded.Loaded? {
      ChildrenListed(env, inForce, node, path);
      LoadedDistinct(env, inForce, node, path);
      WalkAllIsInOrder(env, inForce, node, loaded.children, path);
      WalkAllStaysBelow(env, inForce, node, loaded.children, path);
      OwnEntryIsLast(node, path, WalkAll(env, inForce, node, loaded.children, path), loaded.entry);
    } else {
      assert InOrder(node, path, []) by { NoEntries(node, path); }
    }
  }

  lemma NoEntries(node: Node, path: Path)
    ensures InOrder(node, path, [])
  {
  }

  lemma ChildrenListed(env: Env, patterns: seq<Pattern>, node: Node, path: Path)
    ensures var r := Load(env, patterns, node, path); r.Loaded? && node.Dir? ==> Listed(node.children, r.children)
  {
    if node.Dir? && node.stat.Some? && node.readable {
      LoadedListed(env, patterns, NewEntry(path, node.stat.value), node.children);
    }
  }

  lemma OwnEntryIsLast(node: Node, path: Path, below: seq<FolderEntry>, own: FolderEntry)
    requires InOrder(node, path, below) && own.path == path
    requires forall e :: e in below ==> path < e.path
    ensures InOrder(node, path, below + [own])
  {
    forall i, j | 0 <= i < j < |below + [own]|
      ensures Earlier(node, Rest(path, (below + [own])[i]), Rest(path, (below + [own])[j]))
    {
      if j == |below| {
        assert below[i] in below && Rest(path, own) == [];
      }
    }
  }

  lemma {:induction false} WalkAllIsInOrder(env: Env, patterns: seq<Pattern>, parent: Node, children: seq<Node>, path: Path)
    requires DistinctNames(parent)
    requires children != [] ==> parent.Dir?
    requires forall c :: c in children ==> c in parent.children
    requires parent.Dir? ==> Listed(parent.children, children)
    requires forall i, j :: 0 <= i < j < |children| ==> children[i].name != children[j].name
    ensures InOrder(parent, path, WalkAll(env, patterns, parent, children, path))
    decreases parent, |children|
  {
    hide InOrder, ListedBefore;
    if children == [] {
      NoEntries(parent, path);
    } else {
      var front, last := children[..|children| - 1], children[|children| - 1];
      assert last in children;
      WalkAllIsInOrder(env, patterns, parent, front, path);
      var i :| 0 <= i < |parent.children| && parent.children[i] == last;
      OnlyOneNamed(parent.children, i, last.name);
      WalkIsInOrder(env, patterns, last, path + [last.name]);
      InOrderBelowChild(parent, path, last, Walk(env, patterns, last, path + [last.name]));
      WalkAllStaysBelow(env, patterns, parent, front, path);
      WalkStaysBelow(env, patterns, last, path + [last.name]);
      forall c | c in front ensures c.name != last.name && ListedBefore(parent.children, c.name, last.name) {
        var k :| 0 <= k < |front| && front[k] == c;
        assert children[k] == c;
      }
      InOrderSum(parent, path, WalkAll(env, patterns, parent, front, path), Walk(env, patterns, last, path + [last.name]), front, last);
    }
  }

  /** What loading the folder at a path below gives, with the patterns of all folders on the way. */
  function LoadAt(env: Env, patterns: seq<Pattern>, node: Node, path: Path, below: Path): Loaded {
    var found := Find(node, below);
    if found.None? then Failed
    else Load(env, PatternsAt(node, patterns, below) + Own(found.value), found.value, path + below)
  }

  /** The walk has an entry for a path if and only if it gets there and the folder can be loaded: what is loaded. */
  lemma WalkHasIff(env: Env, patterns: seq<Pattern>, node: Node, path: Path, below: Path, e: FolderEntry)
    requires DistinctNames(node) && e.path == path + below
    ensures e in Walk(env, patterns, node, path)
            <==> Visits(env, patterns, node, path, below)
                 && LoadAt(env, patterns, node, path, below).Loaded? && LoadAt(env, patterns, node, path, below).entry == e
  {
    var target := path + below;
    hide Visits, PatternsAt, Own, Find, Below, DistinctNames, Walk, Load;
    WalkBelow(env, patterns, node, path, below, target);
    BelowHas(Walk(env, patterns, node, path), target, e);
    if Visits(env, patterns, node, path, below) {
      FoundIsDistinct(node, below);
      OwnEntryOnly(env, PatternsAt(node, patterns, below), Find(node, below).value, target, e);
    }
  }

  lemma {:induction false} FoundIsDistinct(node: Node, below: Path)
    requires DistinctNames(node) && Find(node, below).Some?
    ensures DistinctNames(Find(node, below).value)
    decreases |below|
  {
    if below != [] {
      var child := Child(node, below[0]).value;
      var i :| 0 <= i < |node.children| && node.children[i] == child;
      FoundIsDistinct(child, below[1..]);
    }
  }

  lemma {:induction false} BelowHas(entries: seq<FolderEntry>, target: Path, e: FolderEntry)
    requires target <= e.path
    ensures e in entries <==> e in Below(entries, target)
  {
    if entries != [] {
      BelowHas(entries[..|entries| - 1], target, e);
      assert entries == entries[..|entries| - 1] + [entries[|entries| - 1]];
    }
  }

  lemma OwnEntryOnly(env: Env, patterns: seq<Pattern>, node: Node, path: Path, e: FolderEntry)
    requires DistinctNames(node) && e.path == path
    ensures var loaded := Load(env, patterns + Own(node), node, path);
            e in Walk(env, patterns, node, path) <==> loaded.Loaded? && loaded.entry == e
  {
    hide Walk, WalkAll, Load, Own;
    WalkUnfolds(env, patterns, node, path);
    var loaded := Load(env, patterns + Own(node), node, path);
    if loaded.Loaded? {
      LoadedDistinct(env, patterns + Own(node), node, path);
      WalkAllStaysBelow(env, patterns + Own(node), node, loaded.children, path);
      forall f | f in WalkAll(env, patterns + Own(node), node, loaded.children, path) ensures f != e {
        assert |path| < |f.path|;
      }
    }
  }
}

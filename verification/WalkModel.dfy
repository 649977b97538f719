/**
 The directory walk on a snapshot of the file system, a finite tree. The ignore patterns in
 force are the flattened stack; the last pattern that matches a path decides.
 */
module WalkModel {
  import opened Options
  import opened Text

  datatype Name = Name(text: string)

  /** A path relative to the library root, which is the empty path. */
  type Path = seq<Name>

  datatype Pattern = Pattern(text: string)

  datatype IgnoreFile = Absent | Unreadable | Content(lines: seq<string>, truncated: bool)

  /** Times are None where the file system gives an error instead. */
  datatype Node =
    | File(name: Name, info: Option<int>)
    | BrokenLink(name: Name)
    | Dir(name: Name, stat: Option<int>, info: Option<int>, readable: bool, ignoreFile: IgnoreFile, children: seq<Node>)

  datatype Effect = Set | Clear | Keep

  datatype Kind = Audio | Playlist | Image | Other

  /** What the matcher library does with one pattern, and how files are classified by name. */
  datatype Env = Env(effect: (Pattern, Path) -> Effect, kind: Name -> Kind)

  datatype FolderEntry = FolderEntry(
    path: Path, modTime: int, audio: set<Name>, images: set<Name>, playlists: nat, subFolders: nat, imagesUpdatedAt: int)

  // ----- Patterns -----

  /** Blank lines and comments are no patterns. */
  function PatternsIn(lines: seq<string>): seq<Pattern> {
    if lines == [] then []
    else
      var line := Trim(lines[|lines| - 1]);
      PatternsIn(lines[..|lines| - 1]) + if line == "" || line[0] == '#' then [] else [Pattern(line)]
  }

  const IGNORE_EVERYTHING := Pattern("**/*")

  /** An ignore file without patterns stands for one that ignores everything. */
  function PatternsOf(f: IgnoreFile): seq<Pattern> {
    if !f.Content? then []
    else
      var patterns := PatternsIn(f.lines);
      if patterns == [] && !f.truncated then [IGNORE_EVERYTHING] else patterns
  }

  function Own(node: Node): seq<Pattern> {
    if node.Dir? then PatternsOf(node.ignoreFile) else []
  }

  /** The last pattern with a say decides. */
  function Decision(env: Env, patterns: seq<Pattern>, path: Path): Effect {
    if patterns == [] then Keep
    else
      var last := env.effect(patterns[|patterns| - 1], path);
      if last.Keep? then Decision(env, patterns[..|patterns| - 1], path) else last
  }

  predicate Ignored(env: Env, patterns: seq<Pattern>, path: Path) {
    path != [] && Decision(env, patterns, path).Set?
  }

  function Flatten(stack: seq<seq<Pattern>>): seq<Pattern> {
    if stack == [] then [] else Flatten(stack[..|stack| - 1]) + stack[|stack| - 1]
  }

  // ----- Names -----

  predicate StartsWith(name: string, prefix: string) {
    prefix <= name
  }

  predicate EntryIgnored(name: Name) {
    StartsWith(name.text, ".") && !StartsWith(name.text, "..")
  }

  /** The simple case folding of Unicode, as far as it meets ASCII letters. */
  function Lower(c: char): char {
    if 'A' <= c <= 'Z' then (c as int + 32) as char
    else if c == '\U{17F}' then 's'
    else if c == '\U{212A}' then 'k'
    else c
  }

  predicate EqualFold(a: string, b: string) {
    |a| == |b| && forall i :: 0 <= i < |a| ==> Lower(a[i]) == Lower(b[i])
  }

  const IGNORED_DIRS := ["$RECYCLE.BIN", "#snapshot", "@Recycle", "@Recently-Snapshot", ".streams", "lost+found"]

  predicate DirIgnored(name: Name) {
    EntryIgnored(name) || exists i :: 0 <= i < |IGNORED_DIRS| && EqualFold(IGNORED_DIRS[i], name.text)
  }

  // ----- loadDir -----

  function Max(a: int, b: int): int {
    if a < b then b else a
  }

  function NewEntry(path: Path, modTime: int): FolderEntry {
    FolderEntry(path, modTime, {}, {}, 0, 0, 0)
  }

  function WithFile(env: Env, e: FolderEntry, name: Name, time: int): FolderEntry {
    var e := e.(modTime := Max(e.modTime, time));
    match env.kind(name)
    case Audio => e.(audio := e.audio + {name})
    case Playlist => e.(playlists := e.playlists + 1)
    case Image => e.(images := e.images + {name}, imagesUpdatedAt := Max(e.imagesUpdatedAt, Max(time, e.modTime)))
    case Other => e
  }

  datatype Loaded = Failed | Loaded(entry: FolderEntry, children: seq<Node>)

  predicate Enterable(node: Node) {
    node.Dir? && !DirIgnored(node.name) && node.readable
  }

  /** What one directory entry adds; an entry that cannot be inspected spoils the folder. */
  function LoadOne(env: Env, patterns: seq<Pattern>, sofar: Loaded, node: Node): Loaded {
    if sofar.Failed? || Ignored(env, patterns, sofar.entry.path + [node.name]) || EntryIgnored(node.name) || node.BrokenLink? then sofar
    else if Enterable(node) then
      Loaded(sofar.entry.(subFolders := sofar.entry.subFolders + 1), sofar.children + [node])
    else if node.info.None? then Failed
    else Loaded(WithFile(env, sofar.entry, node.name, node.info.value), sofar.children)
  }

  function LoadAll(env: Env, patterns: seq<Pattern>, entry: FolderEntry, nodes: seq<Node>): (r: Loaded)
    ensures r.Loaded? ==> r.entry.path == entry.path && |r.children| <= |nodes|
    ensures r.Loaded? ==> forall c :: c in r.children ==> c in nodes && Enterable(c)
  {
    if nodes == [] then Loaded(entry, [])
    else LoadOne(env, patterns, LoadAll(env, patterns, entry, nodes[..|nodes| - 1]), nodes[|nodes| - 1])
  }

  /** loadDir, with the patterns in force; a target that is no directory gives an empty entry. */
  function Load(env: Env, patterns: seq<Pattern>, node: Node, path: Path): (r: Loaded)
    ensures r.Loaded? ==> r.entry.path == path
    ensures r.Loaded? && node.Dir? ==> |r.children| <= |node.children| && forall c :: c in r.children ==> c in node.children
    ensures r.Loaded? && !node.Dir? ==> r.children == []
  {
    match node
    case Dir(_, stat, _, readable, _, children) =>
      if stat.None? || !readable then Failed else LoadAll(env, patterns, NewEntry(path, stat.value), children)
    case File(_, info) => if info.None? then Failed else Loaded(NewEntry(path, info.value), [])
    case BrokenLink(_) => Failed
  }

  // ----- walkFolder and walkDirTree -----

  function Width(node: Node): nat {
    if node.Dir? then |node.children| else 0
  }

  /** The folders below and at a node, children first; the node's own patterns are pushed. */
  function Walk(env: Env, patterns: seq<Pattern>, node: Node, path: Path): seq<FolderEntry>
    decreases node, Width(node) + 1
  {
    var inForce := patterns + Own(node);
    match Load(env, inForce, node, path)
    case Failed => []
    case Loaded(entry, children) => WalkAll(env, inForce, node, children, path) + [entry]
  }

  function WalkAll(env: Env, patterns: seq<Pattern>, parent: Node, children: seq<Node>, path: Path): seq<FolderEntry>
    requires children != [] ==> parent.Dir?
    requires forall c :: c in children ==> c in parent.children
    decreases parent, |children|
  {
    if children == [] then []
    else
      var last := children[|children| - 1];
      assert last in children;
      WalkAll(env, patterns, parent, children[..|children| - 1], path) + Walk(env, patterns, last, path + [last.name])
  }

  function Child(node: Node, name: Name): Option<Node> {
    if node.Dir? then ChildIn(node.children, name) else None
  }

  function ChildIn(nodes: seq<Node>, name: Name): (r: Option<Node>)
    ensures r.Some? ==> r.value in nodes && r.value.name == name
    ensures r.None? ==> forall n :: n in nodes ==> n.name != name
  {
    if nodes == [] then None
    else if nodes[|nodes| - 1].name == name then Some(nodes[|nodes| - 1])
    else ChildIn(nodes[..|nodes| - 1], name)
  }

  function Find(node: Node, path: Path): Option<Node> {
    if path == [] then Some(node)
    else
      var child := Child(node, path[0]);
      if child.None? then None else Find(child.value, path[1..])
  }

  predicate Exists(node: Node) {
    match node
    case Dir(_, stat, _, _, _, _) => stat.Some?
    case File(_, info) => info.Some?
    case BrokenLink(_) => false
  }

  /** PushAllParents: one block for the root and one for every folder down to the target, included. */
  function ParentBlocks(node: Node, path: Path): seq<seq<Pattern>> {
    [Own(node)] +
    if path == [] then []
    else
      var child := Child(node, path[0]);
      if child.None? then seq(|path|, _ => []) else ParentBlocks(child.value, path[1..])
  }

  /** walkDirTree for one target. */
  function WalkTarget(env: Env, root: Node, target: Path): seq<FolderEntry> {
    var node := Find(root, target);
    if node.None? || !Exists(node.value) then []
    else Walk(env, Flatten(ParentBlocks(root, target)), node.value, target)
  }

  /** A walk without targets starts at the root. */
  function FullWalk(env: Env, root: Node): seq<FolderEntry> {
    WalkTarget(env, root, [])
  }

  function WalkTargets(env: Env, root: Node, targets: seq<Path>): seq<FolderEntry> {
    if targets == [] then []
    else WalkTargets(env, root, targets[..|targets| - 1]) + WalkTarget(env, root, targets[|targets| - 1])
  }
}

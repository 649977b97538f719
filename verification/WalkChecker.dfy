/**
 The ignore checker as the object it is, and the walk that pushes and pops its patterns.
 */
module WalkChecker {
  import opened Options
  import opened Text
  import opened WalkModel
  import opened WalkSelective

  /** The patterns of the ignore file in a folder; none if there is no such folder. */
  function FolderPatterns(root: Node, folder: Path): seq<Pattern> {
    var node := Find(root, folder);
    if node.None? then [] else Own(node.value)
  }

  lemma {:induction false} FindChild(root: Node, path: Path, node: Node, child: Node)
    requires DistinctNames(root) && Find(root, path) == Some(node) && node.Dir? && child in node.children
    ensures Find(root, path + [child.name]) == Some(child)
    decreases |path|
  {
    if path == [] {
      var i :| 0 <= i < |node.children| && node.children[i] == child;
      OnlyOneNamed(node.children, i, child.name);
      assert (path + [child.name])[1..] == [];
    } else {
      var next := Child(root, path[0]).value;
      var i :| 0 <= i < |root.children| && root.children[i] == next;
      FindChild(next, path[1..], node, child);
      assert (path + [child.name])[1..] == path[1..] + [child.name];
    }
  }

  lemma FlattenAppend(stack: seq<seq<Pattern>>, block: seq<Pattern>)
    ensures Flatten(stack + [block]) == Flatten(stack) + block
  {
    assert (stack + [block])[..|stack|] == stack;
  }

  /** The blocks down to a target, one per prefix of its path. */
  lemma {:induction false} ParentBlockAt(root: Node, target: Path, k: nat)
    requires k <= |target|
    ensures |ParentBlocks(root, target)| == |target| + 1
    ensures ParentBlocks(root, target)[k] == FolderPatterns(root, target[..k])
    decreases |target|
  {
    if target != [] {
      var child := Child(root, target[0]);
      if k == 0 {
        if child.Some? {
          ParentBlockAt(child.value, target[1..], 0);
        }
      } else {
        assert target[..k][0] == target[0] && target[..k][1..] == target[1..][..k - 1];
        if child.Some? {
          ParentBlockAt(child.value, target[1..], k - 1);
        }
      }
    }
  }

  class IgnoreChecker {
    const root: Node
    const env: Env
    var patternStack: seq<seq<Pattern>>
    var currentPatterns: seq<Pattern>
    var matcher: Option<seq<Pattern>>      // the compiled patterns, none when there are no patterns

    ghost predicate Valid()
      reads this
    {
      && currentPatterns == Flatten(patternStack)
      && matcher == if currentPatterns == [] then None else Some(currentPatterns)
    }

    constructor (root: Node, env: Env)
      ensures Valid() && patternStack == [] && this.root == root && this.env == env
    {
      this.root, this.env := root, env;
      patternStack, currentPatterns, matcher := [], [], None;
    }

    method LoadPatternsFromFolder(folder: Path) returns (patterns: seq<Pattern>)
      ensures patterns == FolderPatterns(root, folder)
    {
      patterns := [];
      var node := Find(root, folder);
      if node.None? || !node.value.Dir? || !node.value.ignoreFile.Content? {
        return;
      }
      var f := node.value.ignoreFile;
      for i := 0 to |f.lines|
        invariant patterns == PatternsIn(f.lines[..i])
      {
        assert f.lines[..i + 1][..i] == f.lines[..i];
        var line := Trim(f.lines[i]);
        if line == "" || line[0] == '#' {
          continue;
        }
        patterns := patterns + [Pattern(line)];
      }
      assert f.lines[..|f.lines|] == f.lines;
      if f.truncated {
        return;
      }
      if |patterns| == 0 {
        patterns := [IGNORE_EVERYTHING];
      }
    }

    method RebuildCurrentPatterns()
      modifies `currentPatterns, `matcher
      ensures Valid()
    {
      var flat := [];
      for i := 0 to |patternStack|
        invariant flat == Flatten(patternStack[..i])
      {
        assert patternStack[..i + 1] == patternStack[..i] + [patternStack[i]];
        FlattenAppend(patternStack[..i], patternStack[i]);
        flat := flat + patternStack[i];
      }
      assert patternStack[..|patternStack|] == patternStack;
      currentPatterns := flat;
      matcher := if |flat| == 0 then None else Some(flat);
    }

    method Push(folder: Path)
      modifies `patternStack, `currentPatterns, `matcher
      ensures Valid() && patternStack == old(patternStack) + [FolderPatterns(root, folder)]
    {
      var patterns := LoadPatternsFromFolder(folder);
      patternStack := patternStack + [patterns];
      RebuildCurrentPatterns();
    }

    method Pop()
      requires Valid()
      modifies `patternStack, `currentPatterns, `matcher
      ensures Valid()
      ensures patternStack == if old(patternStack) == [] then [] else old(patternStack)[..|old(patternStack)| - 1]
    {
      if |patternStack| > 0 {
        patternStack := patternStack[..|patternStack| - 1];
        RebuildCurrentPatterns();
      }
    }

    /** Pushes every folder from the root down to the target, and compiles once. */
    method PushAllParents(target: Path)
      modifies `patternStack, `currentPatterns, `matcher
      ensures Valid() && patternStack == old(patternStack) + ParentBlocks(root, target)
    {
      ParentBlockAt(root, target, 0);
      assert target[..0] == [];
      if target == [] {
        Push([]);
        return;
      }
      var patterns := LoadPatternsFromFolder([]);
      patternStack := patternStack + [patterns];
      for i := 0 to |target|
        invariant patternStack == old(patternStack) + ParentBlocks(root, target)[..i + 1]
      {
        ParentBlockAt(root, target, i + 1);
        patterns := LoadPatternsFromFolder(target[..i + 1]);
        patternStack := patternStack + [patterns];
        assert ParentBlocks(root, target)[..i + 2] == ParentBlocks(root, target)[..i + 1] + [patterns];
      }
      assert ParentBlocks(root, target)[..|target| + 1] == ParentBlocks(root, target);
      RebuildCurrentPatterns();
    }

    method ShouldIgnore(path: Path) returns (ignored: bool)
      requires Valid()
      ensures ignored == Ignored(env, Flatten(patternStack), path)
    {
      if path == [] || matcher.None? {
        return false;
      }
      return Decision(env, matcher.value, path).Set?;
    }

    /** loadDir, entry by entry. */
    method LoadDir(node: Node, path: Path) returns (loaded: Loaded)
      requires Valid()
      ensures loaded == Load(env, Flatten(patternStack), node, path)
    {
      match node
      case BrokenLink(_) =>
        return Failed;
      case File(_, info) =>
        return if info.None? then Failed else Loaded(NewEntry(path, info.value), []);
      case Dir(_, stat, _, readable, _, nodes) =>
        if stat.None? || !readable {
          return Failed;
        }
        var entry, children := NewEntry(path, stat.value), [];
        for i := 0 to |nodes|
          invariant Loaded(entry, children) == LoadAll(env, Flatten(patternStack), NewEntry(path, stat.value), nodes[..i])
        {
          hide Flatten, Decision;
          var n := nodes[i];
          assert nodes[..i + 1][..i] == nodes[..i];
          var next := LoadOne(env, Flatten(patternStack), Loaded(entry, children), n);
          assert LoadAll(env, Flatten(patternStack), NewEntry(path, stat.value), nodes[..i + 1]) == next;
          var ignored := ShouldIgnore(path + [n.name]);
          if ignored || EntryIgnored(n.name) || n.BrokenLink? {
            continue;
          }
          if n.Dir? && !DirIgnored(n.name) && n.readable {
            children := children + [n];
            entry := entry.(subFolders := entry.subFolders + 1);
          } else {
            if n.info.None? {
              FailedStays(env, Flatten(patternStack), NewEntry(path, stat.value), nodes, i + 1);
              return Failed;
            }
            entry := WithFile(env, entry, n.name, n.info.value);
          }
        }
        assert nodes[..|nodes|] == nodes;
        return Loaded(entry, children);
    }

    /** walkFolder: whatever happens below, the stack is as it was when the call returns. */
    method WalkFolder(node: Node, path: Path) returns (results: seq<FolderEntry>)
      requires Valid() && DistinctNames(root) && Find(root, path) == Some(node)
      modifies `patternStack, `currentPatterns, `matcher
      ensures Valid() && patternStack == old(patternStack)
      ensures results == Walk(env, Flatten(patternStack), node, path)
      decreases node, Width(node) + 1
    {
      hide Flatten, Own, Load, DistinctNames;
      Push(path);
      assert FolderPatterns(root, path) == Own(node);
      FlattenAppend(old(patternStack), Own(node));
      results := [];
      var loaded := LoadDir(node, path);
      if loaded.Loaded? {
        var children := loaded.children;
        for i := 0 to |children|
          invariant Valid() && patternStack == old(patternStack) + [Own(node)]
          invariant results == WalkAll(env, Flatten(patternStack), node, children[..i], path)
        {
          var c := children[i];
          assert c in children;
          FindChild(root, path, node, c);
          var below := WalkFolder(c, path + [c.name]);
          assert children[..i + 1][..i] == children[..i];
          results := results + below;
        }
        assert children[..|children|] == children;
        results := results + [loaded.entry];
      }
      Pop();
    }
  }

  lemma {:induction false} FailedStays(env: Env, patterns: seq<Pattern>, entry: FolderEntry, nodes: seq<Node>, k: nat)
    requires k <= |nodes| && LoadAll(env, patterns, entry, nodes[..k]).Failed?
    ensures LoadAll(env, patterns, entry, nodes).Failed?
    decreases |nodes| - k
  {
    if k == |nodes| {
      assert nodes[..k] == nodes;
    } else {
      assert nodes[..k + 1][..k] == nodes[..k];
      FailedStays(env, patterns, entry, nodes, k + 1);
    }
  }

  /** One target, with a checker of its own. */
  method WalkOneTarget(env: Env, root: Node, target: Path) returns (found: seq<FolderEntry>)
    requires DistinctNames(root)
    ensures found == WalkTarget(env, root, target)
  {
    hide Walk, Flatten, ParentBlocks, DistinctNames, Find;
    var node := Find(root, target);
    if node.None? || !Exists(node.value) {
      return [];
    }
    var checker := new IgnoreChecker(root, env);
    checker.PushAllParents(target);
    assert [] + ParentBlocks(root, target) == ParentBlocks(root, target);
    found := checker.WalkFolder(node.value, target);
  }

  /** walkDirTree: every target in turn; no targets stand for the root. */
  method WalkDirTree(env: Env, root: Node, targetFolders: seq<Path>) returns (results: seq<FolderEntry>)
    requires DistinctNames(root)
    ensures results == WalkTargets(env, root, if targetFolders == [] then [[]] else targetFolders)
  {
    hide WalkTarget, DistinctNames;
    var folders := if |targetFolders| == 0 then [[]] else targetFolders;
    results := [];
    for i := 0 to |folders|
      invariant results == WalkTargets(env, root, folders[..i])
    {
      assert folders[..i + 1][..i] == folders[..i];
      var found := WalkOneTarget(env, root, folders[i]);
      results := results + found;
    }
    assert folders[..|folders|] == folders;
  }
}

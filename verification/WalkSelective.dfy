/**
 The selective walk refines the full walk: for a folder that the full walk would visit, it
 gives exactly the full walk's entries at and below the folder, in the same order, although
 the two have different patterns on their stacks.
 */
module WalkSelective {
  import opened Options
  import opened Text
  import opened WalkModel

  // ----- Pattern stacks that decide alike -----

  ghost predicate Alike(env: Env, a: seq<Pattern>, b: seq<Pattern>) {
    forall path: Path :: Decision(env, a, path) == Decision(env, b, path)
  }

  lemma {:induction false} DecisionOfSum(env: Env, a: seq<Pattern>, b: seq<Pattern>, path: Path)
    ensures Decision(env, a + b, path) == if Decision(env, b, path).Keep? then Decision(env, a, path) else Decision(env, b, path)
  {
    if b == [] {
      assert a + b == a;
    } else {
      assert (a + b)[..|a + b| - 1] == a + b[..|b| - 1];
      DecisionOfSum(env, a, b[..|b| - 1], path);
    }
  }

  lemma AlikeSum(env: Env, a: seq<Pattern>, b: seq<Pattern>, more: seq<Pattern>)
    requires Alike(env, a, b)
    ensures Alike(env, a + more, b + more)
  {
    forall path: Path ensures Decision(env, a + more, path) == Decision(env, b + more, path) {
      DecisionOfSum(env, a, more, path);
      DecisionOfSum(env, b, more, path);
    }
  }

  /** Repeating a block right after itself changes no decision. */
  lemma RepeatedBlock(env: Env, before: seq<Pattern>, block: seq<Pattern>, after: seq<Pattern>)
    ensures Alike(env, before + block + block + after, before + block + after)
  {
    forall path: Path
      ensures Decision(env, before + block + block + after, path) == Decision(env, before + block + after, path)
    {
      DecisionOfSum(env, before + block + block, after, path);
      DecisionOfSum(env, before + block, after, path);
      DecisionOfSum(env, before + block, block, path);
      DecisionOfSum(env, before, block, path);
    }
  }

  lemma {:induction false} LoadAllAlike(env: Env, a: seq<Pattern>, b: seq<Pattern>, entry: FolderEntry, nodes: seq<Node>)
    requires Alike(env, a, b)
    ensures LoadAll(env, a, entry, nodes) == LoadAll(env, b, entry, nodes)
  {
    if nodes != [] {
      LoadAllAlike(env, a, b, entry, nodes[..|nodes| - 1]);
      var sofar := LoadAll(env, a, entry, nodes[..|nodes| - 1]);
      if sofar.Loaded? {
        var path := sofar.entry.path + [nodes[|nodes| - 1].name];
        assert Decision(env, a, path) == Decision(env, b, path);
      }
    }
  }

  /** The walk depends on the patterns only through their decisions. */
  lemma {:induction false} WalkAlike(env: Env, a: seq<Pattern>, b: seq<Pattern>, node: Node, path: Path)
    requires Alike(env, a + Own(node), b + Own(node))
    ensures Walk(env, a, node, path) == Walk(env, b, node, path)
    decreases node, Width(node) + 1
  {
    if node.Dir? && node.stat.Some? && node.readable {
      LoadAllAlike(env, a + Own(node), b + Own(node), NewEntry(path, node.stat.value), node.children);
    }
    var loaded := Load(env, a + Own(node), node, path);
    if loaded.Loaded? {
      WalkAllAlike(env, a + Own(node), b + Own(node), node, loaded.children, path);
    }
  }

  lemma {:induction false} WalkAllAlike(env: Env, a: seq<Pattern>, b: seq<Pattern>, parent: Node, children: seq<Node>, path: Path)
    requires Alike(env, a, b)
    requires children != [] ==> parent.Dir?
    requires forall c :: c in children ==> c in parent.children
    ensures WalkAll(env, a, parent, children, path) == WalkAll(env, b, parent, children, path)
    decreases parent, |children|
  {
    if children != [] {
      var last := children[|children| - 1];
      assert last in children;
      WalkAllAlike(env, a, b, parent, children[..|children| - 1], path);
      AlikeSum(env, a, b, Own(last));
      WalkAlike(env, a, b, last, path + [last.name]);
    }
  }

  // ----- Entries below a path -----

  function Below(entries: seq<FolderEntry>, path: Path): seq<FolderEntry> {
    if entries == [] then []
    else
      var last := entries[|entries| - 1];
      Below(entries[..|entries| - 1], path) + if path <= last.path then [last] else []
  }

  lemma {:induction false} BelowSum(a: seq<FolderEntry>, b: seq<FolderEntry>, path: Path)
    ensures Below(a + b, path) == Below(a, path) + Below(b, path)
  {
    if b == [] {
      assert a + b == a;
    } else {
      assert (a + b)[..|a + b| - 1] == a + b[..|b| - 1];
      BelowSum(a, b[..|b| - 1], path);
    }
  }

  lemma {:induction false} AllBelow(entries: seq<FolderEntry>, path: Path)
    requires forall e :: e in entries ==> path <= e.path
    ensures Below(entries, path) == entries
  {
    if entries != [] {
      AllBelow(entries[..|entries| - 1], path);
      assert entries == entries[..|entries| - 1] + [entries[|entries| - 1]];
    }
  }

  lemma {:induction false} NoneBelow(entries: seq<FolderEntry>, path: Path)
    requires forall e :: e in entries ==> !(path <= e.path)
    ensures Below(entries, path) == []
  {
    if entries != [] {
      NoneBelow(entries[..|entries| - 1], path);
    }
  }

  lemma {:induction false} WalkStaysBelow(env: Env, patterns: seq<Pattern>, node: Node, path: Path)
    ensures forall e :: e in Walk(env, patterns, node, path) ==> path <= e.path
    decreases node, Width(node) + 1
  {
    var loaded := Load(env, patterns + Own(node), node, path);
    if loaded.Loaded? {
      WalkAllStaysBelow(env, patterns + Own(node), node, loaded.children, path);
    }
  }

  /** The entries of several children, each below the path of one of them. */
  lemma {:induction false} WalkAllStaysBelow(env: Env, patterns: seq<Pattern>, parent: Node, children: seq<Node>, path: Path)
    requires children != [] ==> parent.Dir?
    requires forall c :: c in children ==> c in parent.children
    ensures forall e :: e in WalkAll(env, patterns, parent, children, path) ==>
              path <= e.path && exists c :: c in children && path + [c.name] <= e.path
    decreases parent, |children|
  {
    if children != [] {
      var last := children[|children| - 1];
      assert last in children;
      WalkAllStaysBelow(env, patterns, parent, children[..|children| - 1], path);
      WalkStaysBelow(env, patterns, last, path + [last.name]);
    }
  }

  // ----- What the full walk visits -----

  /** No two entries of a directory have the same name. */
  ghost predicate DistinctNames(node: Node) {
    node.Dir? ==>
      && (forall i, j :: 0 <= i < j < |node.children| ==> node.children[i].name != node.children[j].name)
      && (forall i :: 0 <= i < |node.children| ==> DistinctNames(node.children[i]))
  }

  /** The walk of a node gets to the folder at the path below it. */
  predicate Visits(env: Env, patterns: seq<Pattern>, node: Node, path: Path, below: Path)
    decreases |below|
  {
    below == [] ||
    var loaded := Load(env, patterns + Own(node), node, path);
    loaded.Loaded? &&
    var child := ChildIn(loaded.children, below[0]);
    child.Some? && Visits(env, patterns + Own(node), child.value, path + [below[0]], below[1..])
  }

  /** The patterns on the full walk's stack when it gets there, before it pushes the folder's own. */
  function PatternsAt(node: Node, patterns: seq<Pattern>, below: Path): seq<Pattern> {
    if below == [] then patterns
    else
      var child := Child(node, below[0]);
      if child.None? then patterns else PatternsAt(child.value, patterns + Own(node), below[1..])
  }

  lemma {:induction false} OnlyOneNamed(nodes: seq<Node>, i: nat, name: Name)
    requires i < |nodes| && nodes[i].name == name
    requires forall j, k :: 0 <= j < k < |nodes| ==> nodes[j].name != nodes[k].name
    ensures ChildIn(nodes, name) == Some(nodes[i])
  {
    var last := |nodes| - 1;
    if i < last {
      OnlyOneNamed(nodes[..last], i, name);
    }
  }

  /** A child passed on by loadDir is the directory's child of that name. */
  lemma ChildIsLoaded(env: Env, patterns: seq<Pattern>, node: Node, path: Path, name: Name)
    requires DistinctNames(node)
    ensures var loaded := Load(env, patterns, node, path);
            loaded.Loaded? && ChildIn(loaded.children, name).Some? ==>
              Child(node, name) == ChildIn(loaded.children, name) && DistinctNames(Child(node, name).value)
  {
    var loaded := Load(env, patterns, node, path);
    if loaded.Loaded? && ChildIn(loaded.children, name).Some? {
      var c := ChildIn(loaded.children, name).value;
      assert c in node.children;
      var i :| 0 <= i < |node.children| && node.children[i] == c;
      OnlyOneNamed(node.children, i, name);
    }
  }

  /** loadDir passes on every child at most once, so their names are distinct too. */
  lemma {:induction false} LoadedInOrder(env: Env, patterns: seq<Pattern>, entry: FolderEntry, nodes: seq<Node>)
    requires forall i, j :: 0 <= i < j < |nodes| ==> nodes[i].name != nodes[j].name
    ensures var loaded := LoadAll(env, patterns, entry, nodes);
            loaded.Loaded? ==> forall i, j :: 0 <= i < j < |loaded.children| ==> loaded.children[i].name != loaded.children[j].name
  {
    if nodes != [] {
      LoadedInOrder(env, patterns, entry, nodes[..|nodes| - 1]);
      var loaded, sofar := LoadAll(env, patterns, entry, nodes), LoadAll(env, patterns, entry, nodes[..|nodes| - 1]);
      if loaded.Loaded? {
        forall i, j | 0 <= i < j < |loaded.children| ensures loaded.children[i].name != loaded.children[j].name {
          assert loaded.children[i] in sofar.children;
        }
      }
    }
  }

  /** Of several children, only the one of the right name has entries below its path. */
  lemma {:induction false} WalkAllBelow(
    env: Env, patterns: seq<Pattern>, parent: Node, children: seq<Node>, path: Path, name: Name, rest: Path)
    requires children != [] ==> parent.Dir?
    requires forall c :: c in children ==> c in parent.children
    requires forall i, j :: 0 <= i < j < |children| ==> children[i].name != children[j].name
    ensures var child := ChildIn(children, name);
            Below(WalkAll(env, patterns, parent, children, path), path + [name] + rest) ==
              if child.None? then [] else Below(Walk(env, patterns, child.value, path + [name]), path + [name] + rest)
    decreases |children|
  {
    if children != [] {
      var last, front := children[|children| - 1], children[..|children| - 1];
      var target := path + [name] + rest;
      assert last in children;
      WalkAllBelow(env, patterns, parent, front, path, name, rest);
      BelowSum(WalkAll(env, patterns, parent, front, path), Walk(env, patterns, last, path + [last.name]), target);
      if last.name == name {
        forall i | 0 <= i < |front| ensures front[i].name != name {
          assert children[i].name != children[|children| - 1].name;
        }
      } else {
        WalkStaysBelow(env, patterns, last, path + [last.name]);
        forall e | e in Walk(env, patterns, last, path + [last.name]) ensures !(target <= e.path) {
          OtherPath(path, last.name, name, rest, e.path);
        }
        NoneBelow(Walk(env, patterns, last, path + [last.name]), target);
      }
    }
  }

  lemma OtherPath(path: Path, a: Name, b: Name, rest: Path, below: Path)
    requires a != b && path + [a] <= below
    ensures !(path + [b] + rest <= below)
  {
    assert below[|path|] == a && (path + [b] + rest)[|path|] == b;
  }

  lemma OwnEntryIsAbove(entry: FolderEntry, path: Path, below: Path)
    requires entry.path == path && below != []
    ensures Below([entry], path + below) == []
  {
    NoneBelow([entry], path + below);
  }

  /** The children of a loaded folder are children of the directory, with distinct names. */
  lemma LoadedDistinct(env: Env, patterns: seq<Pattern>, node: Node, path: Path)
    requires DistinctNames(node)
    ensures var loaded := Load(env, patterns, node, path);
            loaded.Loaded? ==>
              && (loaded.children != [] ==> node.Dir?)
              && (forall c :: c in loaded.children ==> c in node.children)
              && (forall i, j :: 0 <= i < j < |loaded.children| ==> loaded.children[i].name != loaded.children[j].name)
  {
    if node.Dir? && node.stat.Some? && node.readable {
      LoadedInOrder(env, patterns, NewEntry(path, node.stat.value), node.children);
    }
  }

  lemma WalkUnfolds(env: Env, patterns: seq<Pattern>, node: Node, path: Path)
    ensures var inForce := patterns + Own(node);
            var loaded := Load(env, inForce, node, path);
            Walk(env, patterns, node, path) ==
              if loaded.Failed? then [] else WalkAll(env, inForce, node, loaded.children, path) + [loaded.entry]
  {
    hide Load, Own;
  }

  /** One step of the induction: only the child on the way has entries below the target. */
  lemma WalkBelowChild(env: Env, patterns: seq<Pattern>, node: Node, path: Path, below: Path)
    requires DistinctNames(node) && below != []
    ensures var loaded := Load(env, patterns + Own(node), node, path);
            Below(Walk(env, patterns, node, path), path + below) ==
              if loaded.Failed? || ChildIn(loaded.children, below[0]).None? then []
              else Below(Walk(env, patterns + Own(node), ChildIn(loaded.children, below[0]).value, path + [below[0]]), path + below)
  {
    hide Walk, WalkAll, Load, Own, ChildIn, DistinctNames, Below;
    WalkUnfolds(env, patterns, node, path);
    LoadedDistinct(env, patterns + Own(node), node, path);
    var inForce := patterns + Own(node);
    var loaded := Load(env, inForce, node, path);
    if loaded.Failed? {
      NoneBelow([], path + below);
    } else {
      BelowSum(WalkAll(env, inForce, node, loaded.children, path), [loaded.entry], path + below);
      OwnEntryIsAbove(loaded.entry, path, below);
      WalkAllBelow(env, inForce, node, loaded.children, path, below[0], below[1..]);
      assert path + [below[0]] + below[1..] == path + below;
    }
  }

  lemma WalkAtTarget(env: Env, patterns: seq<Pattern>, node: Node, path: Path)
    ensures Below(Walk(env, patterns, node, path), path + []) == Walk(env, PatternsAt(node, patterns, []), node, path + [])
  {
    hide Walk, Below;
    assert path + [] == path;
    WalkStaysBelow(env, patterns, node, path);
    AllBelow(Walk(env, patterns, node, path), path);
  }

  lemma TargetBelowChild(env: Env, patterns: seq<Pattern>, node: Node, path: Path, below: Path, child: Node)
    requires below != [] && Child(node, below[0]) == Some(child)
    requires var loaded := Load(env, patterns + Own(node), node, path);
             loaded.Loaded? && ChildIn(loaded.children, below[0]) == Some(child)
    ensures Visits(env, patterns, node, path, below) == Visits(env, patterns + Own(node), child, path + [below[0]], below[1..])
    ensures Find(node, below) == Find(child, below[1..])
    ensures PatternsAt(node, patterns, below) == PatternsAt(child, patterns + Own(node), below[1..])
  {
    hide Load, Own, Child, ChildIn;
  }

  lemma NotOnTheWay(env: Env, patterns: seq<Pattern>, node: Node, path: Path, below: Path)
    requires below != []
    requires var loaded := Load(env, patterns + Own(node), node, path);
             loaded.Failed? || ChildIn(loaded.children, below[0]).None?
    ensures !Visits(env, patterns, node, path, below)
  {
  }

  lemma SamePath(path: Path, below: Path)
    requires below != []
    ensures path + [below[0]] + below[1..] == path + below
  {
  }

  /** What a walk has to say about a target below it: the target's own walk, or nothing. */
  lemma {:induction false} WalkBelow(env: Env, patterns: seq<Pattern>, node: Node, path: Path, below: Path, target: Path)
    requires DistinctNames(node) && target == path + below
    ensures Visits(env, patterns, node, path, below) ==>
              && Find(node, below).Some?
              && Below(Walk(env, patterns, node, path), target) ==
                   Walk(env, PatternsAt(node, patterns, below), Find(node, below).value, target)
    ensures !Visits(env, patterns, node, path, below) ==> Below(Walk(env, patterns, node, path), target) == []
    decreases |below|
  {
    if below == [] {
      WalkAtTarget(env, patterns, node, path);
    } else {
      hide Walk, Below, Load, Own, DistinctNames, Visits, Find, PatternsAt, Child, ChildIn;
      WalkBelowChild(env, patterns, node, path, below);
      ChildIsLoaded(env, patterns + Own(node), node, path, below[0]);
      var loaded := Load(env, patterns + Own(node), node, path);
      if loaded.Loaded? && ChildIn(loaded.children, below[0]).Some? {
        var child := ChildIn(loaded.children, below[0]).value;
        TargetBelowChild(env, patterns, node, path, below, child);
        SamePath(path, below);
        WalkBelow(env, patterns + Own(node), child, path + [below[0]], below[1..], target);
      } else {
        NotOnTheWay(env, patterns, node, path, below);
      }
    }
  }

  // ----- The two stacks -----

  lemma {:induction false} FlattenCons(block: seq<Pattern>, stack: seq<seq<Pattern>>)
    ensures Flatten([block] + stack) == block + Flatten(stack)
  {
    if stack == [] {
      assert [block] + stack == [block];
      assert [block][..0] == [];
      assert Flatten([block]) == Flatten([]) + block;
    } else {
      assert ([block] + stack)[..|stack|] == [block] + stack[..|stack| - 1];
      FlattenCons(block, stack[..|stack| - 1]);
    }
  }

  lemma OnTheWay(node: Node, patterns: seq<Pattern>, below: Path)
    requires below != [] && Find(node, below).Some?
    ensures Child(node, below[0]).Some?
    ensures var child := Child(node, below[0]).value;
            && Find(node, below) == Find(child, below[1..])
            && PatternsAt(node, patterns, below) == PatternsAt(child, patterns + Own(node), below[1..])
            && Flatten(ParentBlocks(node, below)) == Own(node) + Flatten(ParentBlocks(child, below[1..]))
  {
    FlattenCons(Own(node), ParentBlocks(Child(node, below[0]).value, below[1..]));
  }

  lemma Associative<T>(a: seq<T>, b: seq<T>, c: seq<T>)
    ensures a + (b + c) == a + b + c
  {
  }

  lemma TargetBlock(node: Node)
    ensures Flatten(ParentBlocks(node, [])) == Own(node) == [] + Own(node) == Own(node) + []
  {
    FlattenCons(Own(node), []);
    assert ParentBlocks(node, []) == [Own(node)] + [];
  }

  /** All blocks from a node down to the target, with or without a repetition of the target's. */
  lemma {:induction false} PatternsOnTheWay(node: Node, patterns: seq<Pattern>, below: Path)
    requires Find(node, below).Some?
    ensures PatternsAt(node, patterns, below) + Own(Find(node, below).value) == patterns + Flatten(ParentBlocks(node, below))
    decreases |below|
  {
    if below == [] {
      TargetBlock(node);
    } else {
      OnTheWay(node, patterns, below);
      var child := Child(node, below[0]).value;
      PatternsOnTheWay(child, patterns + Own(node), below[1..]);
      hide Flatten, Own, Find, PatternsAt, ParentBlocks, Child;
      Associative(patterns, Own(node), Flatten(ParentBlocks(child, below[1..])));
    }
  }

  /** Some blocks, and then the target's own. */
  lemma {:induction false} EndsWithOwn(node: Node, below: Path) returns (before: seq<Pattern>)
    requires Find(node, below).Some?
    ensures Flatten(ParentBlocks(node, below)) == before + Own(Find(node, below).value)
    decreases |below|
  {
    if below == [] {
      before := [];
      TargetBlock(node);
    } else {
      OnTheWay(node, [], below);
      var child := Child(node, below[0]).value;
      var rest := EndsWithOwn(child, below[1..]);
      hide Flatten, Own, Find, PatternsAt, ParentBlocks, Child;
      before := Own(node) + rest;
      Associative(Own(node), rest, Own(Find(child, below[1..]).value));
    }
  }

  lemma StartsWithOwn(node: Node, below: Path) returns (after: seq<Pattern>)
    requires Find(node, below).Some?
    ensures Flatten(ParentBlocks(node, below)) == Own(node) + after
  {
    if below == [] {
      after := [];
      TargetBlock(node);
    } else {
      OnTheWay(node, [], below);
      after := Flatten(ParentBlocks(Child(node, below[0]).value, below[1..]));
    }
  }

  lemma RepeatedFirst(env: Env, block: seq<Pattern>, after: seq<Pattern>)
    ensures Alike(env, block + (block + after), block + after)
  {
    RepeatedBlock(env, [], block, after);
    assert [] + block + block + after == block + (block + after);
    assert [] + block + after == block + after;
  }

  lemma RepeatedLast(env: Env, before: seq<Pattern>, block: seq<Pattern>)
    ensures Alike(env, before + block + block, before + block)
  {
    RepeatedBlock(env, before, block, []);
    assert before + block + block + [] == before + block + block;
    assert before + block + [] == before + block;
  }

  /** The full walk has the root's block twice, the selective walk the target's: they decide alike. */
  lemma StacksAlike(env: Env, root: Node, target: Path)
    requires Find(root, target).Some?
    ensures var own := Own(Find(root, target).value);
            Alike(env, PatternsAt(root, Own(root), target) + own, Flatten(ParentBlocks(root, target)) + own)
  {
    hide Flatten, Own, Find, PatternsAt, ParentBlocks, Decision;
    PatternsOnTheWay(root, Own(root), target);
    var after := StartsWithOwn(root, target);
    var before := EndsWithOwn(root, target);
    RepeatedFirst(env, Own(root), after);
    RepeatedLast(env, before, Own(Find(root, target).value));
  }

  // ----- The result -----

  predicate FullWalkVisits(env: Env, root: Node, target: Path) {
    Exists(root) && Visits(env, Own(root), root, [], target)
  }

  lemma EmptyPrefix(path: Path)
    ensures [] + path == path
  {
  }

  lemma NothingWhereNothingIs(env: Env, patterns: seq<Pattern>, node: Node, path: Path)
    requires !Exists(node)
    ensures Walk(env, patterns, node, path) == []
  {
  }

  /**
   For a target that the full walk would visit, the selective walk gives the full walk's
   entries at and below it, one by one.
   */
  lemma SelectiveRefinesFull(env: Env, root: Node, target: Path)
    requires DistinctNames(root) && FullWalkVisits(env, root, target)
    ensures WalkTarget(env, root, target) == Below(FullWalk(env, root), target)
  {
    FullWalkIs(env, root);
    EmptyPrefix(target);
    WalkBelow(env, Own(root), root, [], target, target);
    StacksAlike(env, root, target);
    var node := Find(root, target).value;
    WalkAlike(env, PatternsAt(root, Own(root), target), Flatten(ParentBlocks(root, target)), node, target);
    if !Exists(node) {
      NothingWhereNothingIs(env, Flatten(ParentBlocks(root, target)), node, target);
    }
    hide Flatten, Own, PatternsAt, ParentBlocks, Walk, FullWalk, Below, Visits, Alike, Exists, DistinctNames, Find;
  }

  lemma FullWalkIs(env: Env, root: Node)
    ensures FullWalk(env, root) == if Exists(root) then Walk(env, Own(root), root, []) else []
  {
    TargetBlock(root);
    hide Walk, Flatten, ParentBlocks, Own;
  }

  lemma UnvisitedIsSilent(env: Env, root: Node, target: Path)
    requires DistinctNames(root) && !FullWalkVisits(env, root, target)
    ensures Below(FullWalk(env, root), target) == []
  {
    FullWalkIs(env, root);
    EmptyPrefix(target);
    if Exists(root) {
      WalkBelow(env, Own(root), root, [], target, target);
    }
    hide Walk, FullWalk, Visits, DistinctNames, Own;
  }

  /** There is no such file or folder, or it cannot be loaded with the patterns of its parents and its own. */
  predicate NothingThere(env: Env, root: Node, target: Path) {
    var node := Find(root, target);
    || node.None? || !Exists(node.value)
    || Load(env, Flatten(ParentBlocks(root, target)) + Own(node.value), node.value, target).Failed?
  }

  lemma SelectiveIsSilentIff(env: Env, root: Node, target: Path)
    ensures WalkTarget(env, root, target) == [] <==> NothingThere(env, root, target)
  {
    var node := Find(root, target);
    if node.Some? && Exists(node.value) {
      WalkUnfolds(env, Flatten(ParentBlocks(root, target)), node.value, target);
    }
    hide Find, Exists, Load, Walk, WalkAll, Flatten, ParentBlocks, Own;
  }

  /**
   For any target: the two agree exactly when the full walk visits it or there is nothing to
   load there. Otherwise the selective walk gives entries that the full walk leaves out: it
   does not ask whether the target itself, or a folder above it, is ignored.
   */
  lemma SelectiveRefinesFullIff(env: Env, root: Node, target: Path)
    requires DistinctNames(root)
    ensures WalkTarget(env, root, target) == Below(FullWalk(env, root), target)
            <==> FullWalkVisits(env, root, target) || NothingThere(env, root, target)
  {
    hide WalkTarget, FullWalk, Below, FullWalkVisits, NothingThere;
    if FullWalkVisits(env, root, target) {
      SelectiveRefinesFull(env, root, target);
    } else {
      UnvisitedIsSilent(env, root, target);
      SelectiveIsSilentIff(env, root, target);
    }
  }

  const SKIPPED := Name("skipped")
  const SKIPPED_DIR := Dir(SKIPPED, Some(1), Some(1), true, Absent, [])
  const SKIPPING_ROOT := Dir(Name("."), Some(1), Some(1), true, Content(["skipped"], false), [SKIPPED_DIR])

  /** One pattern that matches the folder, and no files. */
  function SkippingEnv(): Env {
    Env((pattern: Pattern, path: Path) => if path == [SKIPPED] && pattern.text == "skipped" then Set else Keep, _ => Other)
  }

  /** A folder that the root's ignore file names: a full walk leaves it out, a selective walk does not. */
  lemma IgnoredTargetIsWalked()
    ensures DistinctNames(SKIPPING_ROOT) && Exists(SKIPPING_ROOT) && Find(SKIPPING_ROOT, [SKIPPED]) == Some(SKIPPED_DIR)
    ensures Below(FullWalk(SkippingEnv(), SKIPPING_ROOT), [SKIPPED]) == []
    ensures WalkTarget(SkippingEnv(), SKIPPING_ROOT, [SKIPPED]) == [NewEntry([SKIPPED], 1)]
  {
    RootPatterns();
    assert Child(SKIPPING_ROOT, SKIPPED) == Some(SKIPPED_DIR);
    NotVisited();
    UnvisitedIsSilent(SkippingEnv(), SKIPPING_ROOT, [SKIPPED]);
    EmptyFolderWalked(Flatten(ParentBlocks(SKIPPING_ROOT, [SKIPPED])));
  }

  lemma NotVisited()
    ensures !FullWalkVisits(SkippingEnv(), SKIPPING_ROOT, [SKIPPED])
  {
    hide Load;
    RootPatterns();
    RootLeavesOut(Own(SKIPPING_ROOT) + Own(SKIPPING_ROOT));
  }

  lemma EmptyFolderWalked(patterns: seq<Pattern>)
    ensures Walk(SkippingEnv(), patterns, SKIPPED_DIR, [SKIPPED]) == [NewEntry([SKIPPED], 1)]
  {
    WalkUnfolds(SkippingEnv(), patterns, SKIPPED_DIR, [SKIPPED]);
  }

  lemma RootLeavesOut(patterns: seq<Pattern>)
    requires patterns != [] && patterns[|patterns| - 1] == Pattern("skipped")
    ensures Load(SkippingEnv(), patterns, SKIPPING_ROOT, []) == Loaded(NewEntry([], 1), [])
  {
    var env, entry, nodes := SkippingEnv(), NewEntry([], 1), SKIPPING_ROOT.children;
    assert nodes[..0] == [] && entry.path + [SKIPPED] == [SKIPPED];
    assert env.effect(patterns[|patterns| - 1], [SKIPPED]) == Set;
    assert Decision(env, patterns, [SKIPPED]) == Set;
    assert LoadAll(env, patterns, entry, nodes) == LoadOne(env, patterns, LoadAll(env, patterns, entry, []), SKIPPED_DIR);
  }

  lemma RootPatterns()
    ensures Own(SKIPPING_ROOT) == [Pattern("skipped")]
  {
    var line := "skipped";
    assert TrimLeft(line) == line && TrimRight(line) == line;
    assert ["skipped"][..0] == [];
    assert PatternsIn([line]) == PatternsIn([]) + [Pattern(line)];
  }

  function BelowEach(entries: seq<FolderEntry>, targets: seq<Path>): seq<FolderEntry> {
    if targets == [] then []
    else BelowEach(entries, targets[..|targets| - 1]) + Below(entries, targets[|targets| - 1])
  }

  /** Several targets, one after the other. */
  lemma {:induction false} SelectiveTargetsRefineFull(env: Env, root: Node, targets: seq<Path>)
    requires DistinctNames(root)
    requires forall t :: t in targets ==> FullWalkVisits(env, root, t)
    ensures WalkTargets(env, root, targets) == BelowEach(FullWalk(env, root), targets)
  {
    hide WalkTarget, FullWalk, Below, FullWalkVisits, DistinctNames;
    if targets != [] {
      SelectiveTargetsRefineFull(env, root, targets[..|targets| - 1]);
      SelectiveRefinesFull(env, root, targets[|targets| - 1]);
    }
  }
}

/** `TreeController` of js/main.js: nine trees, the one that is the root,
    the per-tree hash strings and the flag that mutes the hash listener
    while the controller publishes a hash of its own. */
module Controller {
  import opened Utilities
  import opened Attributes
  import opened HashProtocol
  import opened Models
  import opened Views

  /** `CONSTS.TREE_COUNT`. */
  const TREE_COUNT: nat := 9

  /** How one `readHash(hash)` call ends: muted by `ignoreHash`, done for
      every tree, or stopped by the `TypeError` raised at the first tree the
      string has no segment for (the trees before it are already restored). */
  datatype ReadOutcome = Ignored | Restored | Threw(at: nat)

  /** What the controller's operations read and write of one tree: the
      model's attributes, name list and parent, and what its canvas shows. */
  datatype TreeState = TreeState(attributes: AttributeObject, names: seq<Name>, parent: TreeModel?,
                                 canvas: seq<Stroke>)

  // ---------------------------------------------------------------------
  // The scene as a value: what `init`, `spawnChildren` and `readHash` make
  // of the trees.

  /** Tree 0 as `init` makes it: seeded from the stand-in parent. */
  function Founder(roll: Roll): TreeState
    requires roll.Valid()
  {
    var attributes := AttributeObject(Initialized(None, AllNames, roll), None);
    TreeState(attributes, AllNames, null, Rendering(attributes.values))
  }

  /** A tree as `new TreeModel(parent)` makes it and `setupTree` draws it. */
  function Newborn(parent: TreeModel, parentValues: Values, roll: Roll): TreeState
    requires roll.Valid()
  {
    var attributes := AttributeObject(Initialized(Some(parentValues), AllNames, roll), None);
    TreeState(attributes, AllNames, parent, Rendering(attributes.values))
  }

  /** The nine trees after `init`, `rolls[i]` holding tree `i`'s draws. */
  function InitialScene(root: TreeModel, rolls: seq<Roll>): (scene: seq<TreeState>)
    requires |rolls| == TREE_COUNT && forall i :: 0 <= i < TREE_COUNT ==> rolls[i].Valid()
    ensures |scene| == TREE_COUNT
  {
    seq(TREE_COUNT, i requires 0 <= i < TREE_COUNT =>
      if i == 0 then Founder(rolls[0]) else Newborn(root, Founder(rolls[0]).attributes.values, rolls[i]))
  }

  /** Tree `s` after `setupTree(i, parent)` on an existing tree: five more
      names, seeded from the parent's values, one `randomize`, redrawn. The
      "undefined" property, if any, survives. */
  function Reinitialized(s: TreeState, parent: TreeModel, parentValues: Values, roll: Roll): TreeState
    requires roll.Valid()
  {
    var names := s.names + AllNames;
    var attributes := AttributeObject(Initialized(Some(parentValues), names, roll), s.attributes.strayValue);
    TreeState(attributes, names, parent, Rendering(attributes.values))
  }

  /** The trees after `spawnChildren(index)` has set up the trees before
      `n`, whose root model is `parent`. */
  function SpawnedUpTo(before: seq<TreeState>, index: nat, parent: TreeModel, rolls: seq<Roll>, n: nat)
    : (after: seq<TreeState>)
    requires index < |before| && |rolls| == |before| && forall i :: 0 <= i < |rolls| ==> rolls[i].Valid()
    ensures |after| == |before|
  {
    seq(|before|, i requires 0 <= i < |before| =>
      if i < n && i != index then Reinitialized(before[i], parent, before[index].attributes.values, rolls[i])
      else before[i])
  }

  /** The trees after `spawnChildren(index)`, whose root model is `parent`. */
  function Spawned(before: seq<TreeState>, index: nat, parent: TreeModel, rolls: seq<Roll>): (after: seq<TreeState>)
    requires index < |before| && |rolls| == |before| && forall i :: 0 <= i < |rolls| ==> rolls[i].Valid()
    ensures |after| == |before|
  {
    SpawnedUpTo(before, index, parent, rolls, |before|)
  }

  /** The hash string of every tree. */
  function HashesOf(trees: seq<TreeState>, format: NumberFormat): (hashes: seq<string>)
    ensures |hashes| == |trees|
  {
    seq(|trees|, i requires 0 <= i < |trees| => TreeHash(trees[i].attributes, format))
  }

  /** `stale` with the strings of the trees before `n`, other than `index`,
      taken from `current`. */
  function Refreshed(stale: seq<string>, current: seq<string>, index: nat, n: nat): (hashes: seq<string>)
    requires |current| == |stale|
    ensures |hashes| == |stale|
  {
    seq(|stale|, i requires 0 <= i < |stale| => if i < n && i != index then current[i] else stale[i])
  }

  /** Tree `s` after the `readHash` callback with its segment: the tokens
      assigned positionally, then redrawn. */
  function RestoredState(s: TreeState, segment: string, parse: string -> real): TreeState {
    var attributes := Assigned(s.attributes, s.names, Split(segment, ATTRIBUTE_DELIMITER), parse);
    s.(attributes := attributes, canvas := Rendering(attributes.values))
  }

  /** The trees after `readHash` with the segments `sets`: those with a
      segment are restored, the rest are untouched. */
  function RestoredScene(before: seq<TreeState>, sets: seq<string>, parse: string -> real): (after: seq<TreeState>)
    ensures |after| == |before|
  {
    seq(|before|, i requires 0 <= i < |before| =>
      if i < |sets| then RestoredState(before[i], sets[i], parse) else before[i])
  }

  /** Every canvas shows its tree's attributes. */
  predicate Displaying(trees: seq<TreeState>) {
    forall i :: 0 <= i < |trees| ==> trees[i].canvas == Rendering(trees[i].attributes.values)
  }

  /** All bounded attributes in range and `lineWidth` 6. */
  predicate AllSettled(trees: seq<TreeState>) {
    forall i :: 0 <= i < |trees| ==> Settled(trees[i].attributes.values)
  }

  // ---------------------------------------------------------------------
  // Properties of the scene.

  /** After `init` every tree is settled, every name list cyclic, every
      canvas up to date, and trees 1 to 8 are children of tree 0. */
  lemma {:induction false} InitialSceneIsSettled(root: TreeModel, rolls: seq<Roll>)
    requires |rolls| == TREE_COUNT && forall i :: 0 <= i < TREE_COUNT ==> rolls[i].Valid()
    ensures AllSettled(InitialScene(root, rolls)) && Displaying(InitialScene(root, rolls))
    ensures forall i :: 0 <= i < TREE_COUNT ==> Cyclic(InitialScene(root, rolls)[i].names)
    ensures forall i :: 1 <= i < TREE_COUNT ==> InitialScene(root, rolls)[i].parent == root
  {
    var scene := InitialScene(root, rolls);
    var founder := Founder(rolls[0]);
    OrphanIsSettled(AllNames, rolls[0]);
    assert Cyclic(AllNames) by {
      CyclicExtend([]);
      assert [] + AllNames == AllNames;
    }
    forall i | 0 <= i < TREE_COUNT
      ensures Settled(scene[i].attributes.values) && scene[i].canvas == Rendering(scene[i].attributes.values)
      ensures scene[i].names == AllNames && (i >= 1 ==> scene[i].parent == root)
    {
      if i == 0 {
        assert scene[i] == founder;
      } else {
        var child := Newborn(root, founder.attributes.values, rolls[i]);
        assert scene[i] == child;
        ChildOfSettledParent(founder.attributes.values, AllNames, rolls[i]);
      }
    }
  }

  /** `spawnChildren(index)` leaves the new root as it was and gives every
      other tree five more names, the root as parent and the root's values
      changed in at most the one attribute `randomize` picked. A settled
      scene stays settled; canvases stay up to date. */
  lemma {:induction false} SpawnedProperties(before: seq<TreeState>, index: nat, parent: TreeModel, rolls: seq<Roll>)
    requires index < |before| && |rolls| == |before| && forall i :: 0 <= i < |rolls| ==> rolls[i].Valid()
    requires AllSettled(before) && Displaying(before)
    ensures var after := Spawned(before, index, parent, rolls);
            && after[index] == before[index]
            && AllSettled(after)
            && Displaying(after)
            && forall i :: 0 <= i < |before| && i != index ==>
                 && after[i].parent == parent
                 && after[i].names == before[i].names + AllNames
                 && forall m :: m != Picked(after[i].names, rolls[i].pick) ==>
                      after[i].attributes.values.Get(m) == before[index].attributes.values.Get(m)
  {
    var after := Spawned(before, index, parent, rolls);
    forall i | 0 <= i < |before| && i != index
      ensures Settled(after[i].attributes.values)
      ensures forall m :: m != Picked(after[i].names, rolls[i].pick) ==>
                after[i].attributes.values.Get(m) == before[index].attributes.values.Get(m)
    {
      ChildOfSettledParent(before[index].attributes.values, before[i].names + AllNames, rolls[i]);
    }
  }

  /** Sharing a scene: the hash strings of the `source` attributes, joined
      with ',', read back by `readHash` on a page whose trees are `target`,
      give every target tree exactly its source tree's attributes, drawn;
      its name list and parent stay as they were. The target trees need
      cyclic name lists and no "undefined" property, and the source objects
      no "undefined" property and exactly formatted numbers. */
  lemma {:induction false} RestoreScene(target: seq<TreeState>, source: seq<AttributeObject>, format: NumberFormat)
    requires |target| == |source| >= 1
    requires forall t :: 0 <= t < |target| ==> Cyclic(target[t].names) && |target[t].names| >= 5
    requires forall t :: 0 <= t < |target| ==> target[t].attributes.strayValue.None?
    requires forall t :: 0 <= t < |source| ==> source[t].strayValue.None?
    requires forall t, i :: 0 <= t < |source| && 0 <= i < |Fields(source[t])| ==> Exact(format, Fields(source[t])[i])
    ensures var hashes := seq(|source|, t requires 0 <= t < |source| => TreeHash(source[t], format));
            var after := RestoredScene(target, Split(SceneHash(hashes), TREE_DELIMITER), format.parse);
            forall t :: 0 <= t < |target| ==>
              after[t] == target[t].(attributes := source[t], canvas := Rendering(source[t].values))
  {
    var hashes := seq(|source|, t requires 0 <= t < |source| => TreeHash(source[t], format));
    forall t | 0 <= t < |source|
      ensures TREE_DELIMITER !in hashes[t]
      ensures RestoredState(target[t], hashes[t], format.parse) ==
                target[t].(attributes := source[t], canvas := Rendering(source[t].values))
    {
      TreeHashHasNoTreeDelimiter(source[t], format);
      RestoreOwnHash(source[t], target[t].attributes, target[t].names, format);
    }
  }

  /** What `readHash` as written leaves behind: the segment that the next
      `spawnChildren(k)` publishes for tree `k` is still the string of the
      attributes `before` the restore, and so differs from the string of the
      restored attributes whenever the restore changed them. */
  lemma StaleSegment(hashes: seq<string>, k: nat, before: AttributeObject, after: AttributeObject,
                     format: NumberFormat)
    requires |hashes| == TREE_COUNT && k < TREE_COUNT
    requires forall i :: 0 <= i < |hashes| ==> TREE_DELIMITER !in hashes[i]
    requires hashes[k] == TreeHash(before, format)
    requires forall i :: 0 <= i < |Fields(before)| ==> Exact(format, Fields(before)[i])
    requires forall i :: 0 <= i < |Fields(after)| ==> Exact(format, Fields(after)[i])
    requires before != after
    ensures |Split(SceneHash(hashes), TREE_DELIMITER)| == TREE_COUNT
    ensures Split(SceneHash(hashes), TREE_DELIMITER)[k] != TreeHash(after, format)
  {
    if TreeHash(before, format) == TreeHash(after, format) {
      TreeHashInjective(before, after, format);
    }
  }

  /** One pass of the `spawnChildren` loop, as values: `s0`/`h0` before the
      `setupTree(i, parent)` call, `s1`/`h1` after it. */
  lemma SpawnStep(before: seq<TreeState>, index: nat, parent: TreeModel, rolls: seq<Roll>, i: nat,
                  stale: seq<string>, format: NumberFormat,
                  s0: seq<TreeState>, h0: seq<string>, s1: seq<TreeState>, h1: seq<string>)
    requires index < |before| && |rolls| == |before| && forall j :: 0 <= j < |rolls| ==> rolls[j].Valid()
    requires i < |before| && |stale| == |before|
    requires s0 == SpawnedUpTo(before, index, parent, rolls, i)
    requires h0 == Refreshed(stale, HashesOf(s0, format), index, i)
    requires i == index ==> s1 == s0 && h1 == h0
    requires i != index ==>
               && s1 == s0[i := Reinitialized(s0[i], parent, s0[index].attributes.values, rolls[i])]
               && h1 == h0[i := TreeHash(s1[i].attributes, format)]
    ensures s1 == SpawnedUpTo(before, index, parent, rolls, i + 1)
    ensures h1 == Refreshed(stale, HashesOf(s1, format), index, i + 1)
  {
  }

  /** One pass of the `readHash` loop, as values: restoring tree `n` from
      segment `n` extends the restored prefix by one. */
  lemma RestoreStateStep(before: seq<TreeState>, sets: seq<string>, n: nat, parse: string -> real,
                         s0: seq<TreeState>, s1: seq<TreeState>)
    requires n < |before| && n < |sets|
    requires s0 == RestoredScene(before, sets[..n], parse)
    requires s1 == s0[n := RestoredState(s0[n], sets[n], parse)]
    ensures s1 == RestoredScene(before, sets[..n + 1], parse)
  {
  }

  /** The same pass for the stored hash strings: refreshing string `n` after
      restoring tree `n` extends the up-to-date prefix by one. */
  lemma RestoreHashStep(n: nat, stale: seq<string>, format: NumberFormat,
                        s0: seq<TreeState>, h0: seq<string>, s1: seq<TreeState>, h1: seq<string>)
    requires n < |s0| == |s1| == |stale|
    requires forall j :: 0 <= j < |s0| && j != n ==> s1[j] == s0[j]
    requires h0 == HashesOf(s0, format)[..n] + stale[n..]
    requires h1 == h0[n := TreeHash(s1[n].attributes, format)]
    ensures h1 == HashesOf(s1, format)[..n + 1] + stale[n + 1..]
  {
  }

  /** The `readHash` loop stops at the end of the string or of the trees. */
  lemma RestoreDone(before: seq<TreeState>, sets: seq<string>, n: nat, parse: string -> real)
    requires n <= |sets| && (n == |sets| || n == |before|)
    ensures RestoredScene(before, sets[..n], parse) == RestoredScene(before, sets, parse)
  {
  }

  // ---------------------------------------------------------------------
  // The controller.

  /** `setupTree(index, parent)` for a tree that does not exist yet: a new
      model from `parent` (`null` for none), a new view showing it, and its
      hash string. */
  method CreateTree(parent: TreeModel?, roll: Roll, format: NumberFormat)
    returns (model: TreeModel, view: TreeView, hash: string)
    requires roll.Valid()
    ensures fresh(model) && fresh(view)
    ensures model.Valid() && model.parent == parent && model.names == AllNames
    ensures model.attributes == AttributeObject(Initialized(BaselineOf(parent), AllNames, roll), None)
    ensures view.canvas == Rendering(model.attributes.values) && !view.isRoot
    ensures hash == TreeHash(model.attributes, format)
  {
    model := new TreeModel(parent, roll);
    view := new TreeView();
    var copy := model.GetAttributes();
    view.Draw(copy.values);
    copy := model.GetAttributes();
    hash := GetAttributesHash(copy, format);
  }

  /** What `model` holds and `view` shows. */
  ghost function StateOf(model: TreeModel, view: TreeView): TreeState
    reads model, view`canvas
  {
    TreeState(model.attributes, model.names, model.parent, view.canvas)
  }

  /** What the models hold and the views show, tree by tree. */
  ghost function StatesOf(models: seq<TreeModel>, views: seq<TreeView>): (s: seq<TreeState>)
    requires |views| == |models|
    reads models, views
    ensures |s| == |models|
  {
    seq(|models|, i requires 0 <= i < |models| reads models, views => StateOf(models[i], views[i]))
  }

  lemma StatesOfAppend(models: seq<TreeModel>, views: seq<TreeView>, model: TreeModel, view: TreeView)
    requires |views| == |models|
    ensures StatesOf(models + [model], views + [view]) == StatesOf(models, views) + [StateOf(model, view)]
  {
  }

  lemma SliceExtend<T>(s: seq<T>, i: nat, j: nat)
    requires i <= j < |s|
    ensures s[i..j + 1] == s[i..j] + [s[j]]
  {
  }

  lemma StatesOfPrepend(model: TreeModel, view: TreeView, models: seq<TreeModel>, views: seq<TreeView>)
    requires |views| == |models|
    ensures StatesOf([model] + models, [view] + views) == [StateOf(model, view)] + StatesOf(models, views)
  {
  }

  /** Distinct models and distinct views, every name list cyclic. */
  ghost predicate Separate(trees: seq<TreeModel>, canvases: seq<TreeView>)
    reads trees
  {
    && |trees| == |canvases|
    && (forall j, k :: 0 <= j < k < |trees| ==> trees[j] != trees[k])
    && (forall j, k :: 0 <= j < k < |trees| ==> canvases[j] != canvases[k])
    && (forall j :: 0 <= j < |trees| ==> trees[j].Valid())
  }

  lemma SeparateAppend(trees: seq<TreeModel>, canvases: seq<TreeView>, model: TreeModel, view: TreeView)
    requires Separate(trees, canvases) && model !in trees && view !in canvases && model.Valid()
    ensures Separate(trees + [model], canvases + [view])
  {
  }

  lemma SeparatePrepend(model: TreeModel, view: TreeView, trees: seq<TreeModel>, canvases: seq<TreeView>)
    requires Separate(trees, canvases) && model !in trees && view !in canvases && model.Valid()
    ensures Separate([model] + trees, [view] + canvases)
  {
  }

  lemma SplitFirst<T>(s: seq<T>)
    requires |s| > 0
    ensures s == [s[0]] + s[1..]
  {
  }

  /** The trees of `init`: `setupTree(0)`, then `spawnChildren(0, true)`. */
  method CreateScene(rolls: seq<Roll>, format: NumberFormat)
    returns (trees: seq<TreeModel>, canvases: seq<TreeView>, strings: seq<string>)
    requires |rolls| == TREE_COUNT && forall i :: 0 <= i < TREE_COUNT ==> rolls[i].Valid()
    ensures |trees| == TREE_COUNT && Separate(trees, canvases)
    ensures forall j :: 0 <= j < TREE_COUNT ==> (canvases[j].isRoot <==> j == 0)
    ensures StatesOf(trees, canvases) == InitialScene(trees[0], rolls)
    ensures strings == HashesOf(InitialScene(trees[0], rolls), format)
  {
    var model, view, hash := CreateFounder(rolls[0], format);
    var children, childViews, childHashes := CreateChildren(model, view, rolls, format);
    trees, canvases, strings := [model] + children, [view] + childViews, [hash] + childHashes;
    JoinScene(model, view, children, childViews, trees, canvases);
    SceneFront(model, rolls, format, StatesOf(children, childViews), childHashes);
  }

  /** Tree 0 of `init`: `setupTree(0)`, which creates it, draws it and,
      being the tree `spawnChildren(0)` starts from, marks it as the root. */
  method CreateFounder(roll: Roll, format: NumberFormat) returns (model: TreeModel, view: TreeView, hash: string)
    requires roll.Valid()
    ensures fresh(model) && fresh(view) && model.Valid() && view.isRoot
    ensures StateOf(model, view) == Founder(roll)
    ensures hash == TreeHash(Founder(roll).attributes, format)
  {
    model, view, hash := CreateTree(null, roll, format);
    ghost var founder := StateOf(model, view);
    assert founder == Founder(roll);
    view.UnsetRoot();
    view.SetRoot();
    assert StateOf(model, view) == founder;
  }

  /** The founder in front of trees 1 to 8 is the whole scene, and so are
      their strings. */
  lemma SceneFront(model: TreeModel, rolls: seq<Roll>, format: NumberFormat,
                   rest: seq<TreeState>, restHashes: seq<string>)
    requires |rolls| == TREE_COUNT && forall i :: 0 <= i < TREE_COUNT ==> rolls[i].Valid()
    requires rest == InitialScene(model, rolls)[1..]
    requires restHashes == HashesOf(InitialScene(model, rolls), format)[1..]
    ensures [Founder(rolls[0])] + rest == InitialScene(model, rolls)
    ensures [TreeHash(Founder(rolls[0]).attributes, format)] + restHashes == HashesOf(InitialScene(model, rolls), format)
  {
    var scene := InitialScene(model, rolls);
    SplitFirst(scene);
    var hashes := HashesOf(scene, format);
    SplitFirst(hashes);
  }

  /** Tree 0 in front of trees 1 to 8 makes a scene with tree 0 as its root. */
  lemma JoinScene(model: TreeModel, view: TreeView, children: seq<TreeModel>, childViews: seq<TreeView>,
                  trees: seq<TreeModel>, canvases: seq<TreeView>)
    requires Brood(children, childViews)
    requires model !in children && view !in childViews && model.Valid() && view.isRoot
    requires trees == [model] + children && canvases == [view] + childViews
    ensures Separate(trees, canvases)
    ensures forall j :: 0 <= j < |canvases| ==> (canvases[j].isRoot <==> j == 0)
    ensures StatesOf(trees, canvases) == [StateOf(model, view)] + StatesOf(children, childViews)
  {
    StatesOfPrepend(model, view, children, childViews);
    SeparatePrepend(model, view, children, childViews);
  }

  /** Trees 1 to 8 so far: distinct, none of them the root. */
  ghost predicate Brood(trees: seq<TreeModel>, canvases: seq<TreeView>)
    reads trees, canvases
  {
    Separate(trees, canvases) && forall j :: 0 <= j < |canvases| ==> !canvases[j].isRoot
  }

  /** The loop of `spawnChildren(0, true)` within `init`: `setupTree(i, root)`
      creates trees 1 to 8 as children of tree 0, `model` and `view`. */
  method CreateChildren(model: TreeModel, view: TreeView, rolls: seq<Roll>, format: NumberFormat)
    returns (trees: seq<TreeModel>, canvases: seq<TreeView>, strings: seq<string>)
    requires |rolls| == TREE_COUNT && forall i :: 0 <= i < TREE_COUNT ==> rolls[i].Valid()
    requires model.attributes == Founder(rolls[0]).attributes
    ensures |trees| == TREE_COUNT - 1 && Brood(trees, canvases) && model !in trees && view !in canvases
    ensures StatesOf(trees, canvases) == InitialScene(model, rolls)[1..]
    ensures strings == HashesOf(InitialScene(model, rolls), format)[1..]
  {
    ghost var scene := InitialScene(model, rolls);
    ghost var hashes := HashesOf(scene, format);
    trees, canvases, strings := [], [], [];
    for i := 1 to TREE_COUNT
      invariant |trees| == i - 1 && Brood(trees, canvases) && model !in trees && view !in canvases
      invariant StatesOf(trees, canvases) == scene[1..i]
      invariant strings == hashes[1..i]
    {
      SceneExtend(model, rolls, format, i);
      trees, canvases, strings := AddChild(model, view, rolls[i], format, scene[1..i], hashes[1..i], trees, canvases, strings);
    }
  }

  /** Tree `i` of the scene `init` sets up is the `i`-th child of tree 0. */
  lemma SceneExtend(model: TreeModel, rolls: seq<Roll>, format: NumberFormat, i: nat)
    requires |rolls| == TREE_COUNT && forall i :: 0 <= i < TREE_COUNT ==> rolls[i].Valid()
    requires 1 <= i < TREE_COUNT
    ensures var scene := InitialScene(model, rolls);
            && scene[1..i + 1] == scene[1..i] + [Newborn(model, Founder(rolls[0]).attributes.values, rolls[i])]
            && HashesOf(scene, format)[1..i + 1] ==
               HashesOf(scene, format)[1..i] + [TreeHash(Newborn(model, Founder(rolls[0]).attributes.values, rolls[i]).attributes, format)]
  {
    var scene := InitialScene(model, rolls);
    SliceExtend(scene, 1, i);
    SliceExtend(HashesOf(scene, format), 1, i);
  }

  /** A new unmarked tree after the others keeps the trees a brood. */
  lemma BroodAppend(trees: seq<TreeModel>, canvases: seq<TreeView>, child: TreeModel, childView: TreeView,
                    built: seq<TreeState>)
    requires Brood(trees, canvases) && StatesOf(trees, canvases) == built
    requires child !in trees && childView !in canvases && child.Valid() && !childView.isRoot
    ensures Brood(trees + [child], canvases + [childView])
    ensures StatesOf(trees + [child], canvases + [childView]) == built + [StateOf(child, childView)]
  {
    StatesOfAppend(trees, canvases, child, childView);
    SeparateAppend(trees, canvases, child, childView);
  }

  /** One pass of that loop: a child of `model` created and appended. */
  method AddChild(model: TreeModel, view: TreeView, roll: Roll, format: NumberFormat,
                  ghost built: seq<TreeState>, ghost hashes: seq<string>,
                  trees: seq<TreeModel>, canvases: seq<TreeView>, strings: seq<string>)
    returns (trees': seq<TreeModel>, canvases': seq<TreeView>, strings': seq<string>)
    requires roll.Valid()
    requires Brood(trees, canvases) && model !in trees && view !in canvases
    requires StatesOf(trees, canvases) == built && strings == hashes
    ensures |trees'| == |trees| + 1 && Brood(trees', canvases') && model !in trees' && view !in canvases'
    ensures StatesOf(trees', canvases') == built + [Newborn(model, model.attributes.values, roll)]
    ensures strings' == hashes + [TreeHash(Newborn(model, model.attributes.values, roll).attributes, format)]
  {
    var child, childView, childHash := CreateTree(model, roll, format);
    assert StateOf(child, childView) == Newborn(model, model.attributes.values, roll);
    BroodAppend(trees, canvases, child, childView, built);
    trees', canvases', strings' := trees + [child], canvases + [childView], strings + [childHash];
  }

  /** Re-initializing tree `index` and then redrawing it leaves it as `next`. */
  lemma RedrawStep(s0: seq<TreeState>, s1: seq<TreeState>, s2: seq<TreeState>, index: nat, next: TreeState)
    requires index < |s0| && next.canvas == Rendering(next.attributes.values)
    requires s1 == s0[index := next.(canvas := s0[index].canvas)]
    requires s2 == s1[index := s1[index].(canvas := Rendering(s1[index].attributes.values))]
    ensures s2 == s0[index := next]
  {
  }

  /** The state of the `TreeController` closure: the trees, the root, the
      stored hash strings and the listener flag, plus what it has published. */
  class TreeController {
    /** The index of the root tree. */
    var root: nat
    /** `trees[i].model` and `trees[i].view`. */
    var models: seq<TreeModel>
    var views: seq<TreeView>
    var attributeHashes: seq<string>
    var ignoreHash: bool
    /** The values handed to `hasher.setHash`, oldest first. */
    var published: seq<string>
    /** The conversion between numbers and their text. */
    const format: NumberFormat

    ghost predicate Valid()
      reads this`models, this`views, this`attributeHashes, this`root, models, views
    {
      && |models| == TREE_COUNT && |views| == TREE_COUNT && |attributeHashes| == TREE_COUNT
      && root < TREE_COUNT
      && Separate(models, views)
      && (forall i :: 0 <= i < TREE_COUNT ==> (views[i].isRoot <==> i == root))
    }

    /** The trees as values. */
    ghost function States(): (s: seq<TreeState>)
      requires |views| == |models|
      reads this`models, this`views, models, views
      ensures |s| == |models|
    {
      StatesOf(models, views)
    }

    /** `init()`: `setupTree(0)` makes tree 0 from the stand-in parent, then
        `spawnChildren(0, true)` marks it as the root and makes trees 1 to 8
        as its children, publishing nothing. `rolls[i]` holds the draws of
        tree `i`'s one `randomize`. The hasher listeners are not modelled. */
    constructor (format: NumberFormat, rolls: seq<Roll>)
      requires |rolls| == TREE_COUNT && forall i :: 0 <= i < TREE_COUNT ==> rolls[i].Valid()
      ensures Valid() && this.format == format
      ensures States() == InitialScene(models[0], rolls)
      ensures attributeHashes == HashesOf(States(), format)
      ensures root == 0 && !ignoreHash && published == []
    {
      var trees, canvases, strings := CreateScene(rolls, format);
      this.format := format;
      root := 0;
      ignoreHash := false;
      published := [];
      models, views, attributeHashes := trees, canvases, strings;
    }

    /** `setupTree(index, parent)` for a tree that exists: re-initialize its
        model from `parent`, redraw it and store its new hash string. */
    method SetupTree(index: nat, parent: TreeModel, roll: Roll)
      requires Valid() && index < TREE_COUNT && roll.Valid()
      modifies this`attributeHashes, models[index], views[index]
      ensures Valid()
      ensures States() == old(States())[index :=
                Reinitialized(old(States())[index], parent, old(parent.attributes.values), roll)]
      ensures attributeHashes == old(attributeHashes)[index := TreeHash(States()[index].attributes, format)]
    {
      ghost var s0 := States();
      ghost var next := Reinitialized(s0[index], parent, parent.attributes.values, roll);
      Reinitialize(index, parent, roll);
      ghost var s1 := States();
      Redraw(index);
      RedrawStep(s0, s1, States(), index, next);
      Rehash(index);
    }

    /** `trees[index].model.initialize(parent)`. */
    method Reinitialize(index: nat, parent: TreeModel, roll: Roll)
      requires Valid() && index < TREE_COUNT && roll.Valid()
      modifies models[index]
      ensures Valid()
      ensures States() == old(States())[index :=
                Reinitialized(old(States())[index], parent, old(parent.attributes.values), roll)
                  .(canvas := old(States())[index].canvas)]
    {
      models[index].Initialize(parent, roll);
    }

    /** `trees[index].view.draw(trees[index].model.getAttributes())`. */
    method Redraw(index: nat)
      requires Valid() && index < TREE_COUNT
      modifies views[index]
      ensures Valid()
      ensures States() == old(States())[index := old(States())[index].(canvas := Rendering(old(States())[index].attributes.values))]
    {
      var copy := models[index].GetAttributes();
      views[index].Draw(copy.values);
    }

    /** `attributeHashes[index] = getAttributesHash(index)`. */
    method Rehash(index: nat)
      requires Valid() && index < TREE_COUNT
      modifies this`attributeHashes
      ensures Valid()
      ensures attributeHashes == old(attributeHashes)[index := TreeHash(States()[index].attributes, format)]
    {
      var copy := models[index].GetAttributes();
      var hash := GetAttributesHash(copy, format);
      attributeHashes := attributeHashes[index := hash];
    }

    /** `spawnChildren(index, skipHash)`: tree `index` becomes the root and
        keeps its attributes; every other tree is re-initialized from it, with
        the draws `rolls[i]`. Unless `skipHash`, the joined hash strings are
        published with `ignoreHash` set, so the listener's synchronous echo
        changes nothing. */
    method SpawnChildren(index: nat, skipHash: bool, rolls: seq<Roll>)
      requires Valid() && index < TREE_COUNT
      requires |rolls| == TREE_COUNT && forall i :: 0 <= i < TREE_COUNT ==> rolls[i].Valid()
      modifies this, models, views
      ensures Valid() && root == index
      ensures models == old(models) && views == old(views)
      ensures States() == Spawned(old(States()), index, models[index], rolls)
      ensures attributeHashes == Refreshed(old(attributeHashes), HashesOf(States(), format), index, TREE_COUNT)
      ensures ignoreHash == (if skipHash then old(ignoreHash) else false)
      ensures published == if skipHash then old(published) else old(published) + [SceneHash(attributeHashes)]
    {
      MoveRoot(index);
      SetupChildren(index, rolls);
      if !skipHash {
        Publish();
      }
    }

    /** The loop of `spawnChildren`: `setupTree(i, root)` for every other tree. */
    method SetupChildren(index: nat, rolls: seq<Roll>)
      requires Valid() && index < TREE_COUNT
      requires |rolls| == TREE_COUNT && forall i :: 0 <= i < TREE_COUNT ==> rolls[i].Valid()
      modifies this`attributeHashes, models, views
      ensures Valid()
      ensures States() == Spawned(old(States()), index, models[index], rolls)
      ensures attributeHashes == Refreshed(old(attributeHashes), HashesOf(States(), format), index, TREE_COUNT)
    {
      ghost var before := States();
      ghost var stale := attributeHashes;
      var parent := models[index];
      for i := 0 to TREE_COUNT
        invariant Valid()
        invariant States() == SpawnedUpTo(before, index, parent, rolls, i)
        invariant attributeHashes == Refreshed(stale, HashesOf(States(), format), index, i)
      {
        ghost var s0, h0 := States(), attributeHashes;
        if i != index {
          assert s0[index] == StateOf(parent, views[index]);
          SetupTree(i, parent, rolls[i]);
        }
        SpawnStep(before, index, parent, rolls, i, stale, format, s0, h0, States(), attributeHashes);
      }
    }

    /** The end of `spawnChildren`: publish the joined hash strings with the
        listener muted. */
    method Publish()
      requires Valid()
      modifies this`ignoreHash, this`published, this`attributeHashes, models, views
      ensures Valid() && !ignoreHash
      ensures States() == old(States()) && attributeHashes == old(attributeHashes)
      ensures published == old(published) + [SceneHash(attributeHashes)]
    {
      // Set a flag, so the hash listener does not fire.
      ignoreHash := true;
      Announce();
      ignoreHash := false;
    }

    /** `hasher.setHash`: the new location hash reaches the muted listener. */
    method Announce()
      requires Valid() && ignoreHash
      modifies this`published, this`attributeHashes, models, views
      ensures Valid()
      ensures States() == old(States()) && attributeHashes == old(attributeHashes)
      ensures published == old(published) + [SceneHash(attributeHashes)]
    {
      var hash := SceneHash(attributeHashes);
      published := published + [hash];
      var echo := ReadHash(hash);
    }

    /** The start of `spawnChildren`: the old root's view loses its mark and
        tree `index`'s view gains it. */
    method MoveRoot(index: nat)
      requires Valid() && index < TREE_COUNT
      modifies this`root, views
      ensures Valid() && root == index && States() == old(States())
    {
      views[root].UnsetRoot();
      root := index;
      views[root].SetRoot();
    }

    /** The `forEach` callback of `readHash`: assign the '_'-separated
        tokens of `segment` to tree `index` positionally and redraw it. */
    method RestoreTree(index: nat, segment: string)
      requires Valid() && index < TREE_COUNT
      modifies models[index], views[index]
      ensures Valid()
      ensures States() == old(States())[index := RestoredState(old(States())[index], segment, format.parse)]
    {
      models[index].SetAttributesOrdered(Split(segment, ATTRIBUTE_DELIMITER), format.parse);
      Redraw(index);
    }

    /** `readHash(hash)` with its stored hash strings kept up to date: unless
        muted, segment `i` of `hash` (split on ',') is split on '_' and
        assigned to tree `i` positionally, the tree is redrawn and its hash
        string refreshed, until a tree has no segment. */
    method ReadHash(hash: string) returns (outcome: ReadOutcome)
      requires Valid()
      modifies this`attributeHashes, models, views
      ensures Valid()
      ensures old(ignoreHash) ==> outcome == Ignored && States() == old(States()) && attributeHashes == old(attributeHashes)
      ensures !old(ignoreHash) ==>
                var sets := Split(hash, TREE_DELIMITER);
                var restored := if |sets| < TREE_COUNT then |sets| else TREE_COUNT;
                && outcome == (if |sets| >= TREE_COUNT then Restored else Threw(|sets|))
                && States() == RestoredScene(old(States()), sets, format.parse)
                && attributeHashes == HashesOf(States(), format)[..restored] + old(attributeHashes)[restored..]
    {
      if ignoreHash {
        return Ignored;
      }
      var attributeSets := Split(hash, TREE_DELIMITER);
      ghost var before := States();
      ghost var stale := attributeHashes;
      var index := 0;
      while index < TREE_COUNT && index < |attributeSets|
        invariant 0 <= index <= TREE_COUNT && index <= |attributeSets| && Valid()
        invariant States() == RestoredScene(before, attributeSets[..index], format.parse)
        invariant attributeHashes == HashesOf(States(), format)[..index] + stale[index..]
      {
        RestoreNext(before, stale, attributeSets, index);
        index := index + 1;
      }
      RestoreDone(before, attributeSets, index, format.parse);
      // `attributeSets[index]` is undefined from here on: `.split` throws.
      outcome := if index < TREE_COUNT then Threw(index) else Restored;
    }

    /** One pass of the corrected `readHash` loop: restore, redraw and rehash
        tree `index`. */
    method RestoreNext(ghost before: seq<TreeState>, ghost stale: seq<string>, attributeSets: seq<string>, index: nat)
      requires Valid() && index < TREE_COUNT && index < |attributeSets| && |before| == |stale| == TREE_COUNT
      requires States() == RestoredScene(before, attributeSets[..index], format.parse)
      requires attributeHashes == HashesOf(States(), format)[..index] + stale[index..]
      modifies this`attributeHashes, models[index], views[index]
      ensures Valid()
      ensures States() == RestoredScene(before, attributeSets[..index + 1], format.parse)
      ensures attributeHashes == HashesOf(States(), format)[..index + 1] + stale[index + 1..]
    {
      ghost var s0, h0 := States(), attributeHashes;
      RestoreTree(index, attributeSets[index]);
      Rehash(index);
      RestoreStateStep(before, attributeSets, index, format.parse, s0, States());
      RestoreHashStep(index, stale, format, s0, h0, States(), attributeHashes);
    }

    /** `readHash(hash)` as written: the trees are restored and redrawn, but
        the stored hash strings keep describing the trees as they were. */
    method ReadHashAsWritten(hash: string) returns (outcome: ReadOutcome)
      requires Valid()
      modifies models, views
      ensures Valid() && attributeHashes == old(attributeHashes)
      ensures old(ignoreHash) ==> outcome == Ignored && States() == old(States())
      ensures !old(ignoreHash) ==>
                var sets := Split(hash, TREE_DELIMITER);
                && outcome == (if |sets| >= TREE_COUNT then Restored else Threw(|sets|))
                && States() == RestoredScene(old(States()), sets, format.parse)
    {
      if ignoreHash {
        return Ignored;
      }
      var attributeSets := Split(hash, TREE_DELIMITER);
      ghost var before := States();
      var index := 0;
      while index < TREE_COUNT && index < |attributeSets|
        invariant 0 <= index <= TREE_COUNT && index <= |attributeSets| && Valid()
        invariant States() == RestoredScene(before, attributeSets[..index], format.parse)
      {
        ghost var s0 := States();
        RestoreTree(index, attributeSets[index]);
        RestoreStateStep(before, attributeSets, index, format.parse, s0, States());
        index := index + 1;
      }
      RestoreDone(before, attributeSets, index, format.parse);
      outcome := if index < TREE_COUNT then Threw(index) else Restored;
    }
  }
}

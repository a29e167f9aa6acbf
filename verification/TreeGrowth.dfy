/** How a decomposition grows the tree, and why it can happen only once per node. */
module TreeGrowth {
  import opened Prelude
  import opened ConstraintTags
  import opened Scrum
  import opened Sums
  import opened LedgerTree

  /** `after` is `before` with the children planted under `p`. */
  ghost predicate IsPlanted(before: Tree, after: Tree, p: string, children: seq<TaskContract>) {
    && after.Keys == before.Keys + (set i | 0 <= i < |children| :: children[i].id)
    && (forall n :: n in before ==> after[n] == before[n])
    && forall i :: 0 <= i < |children| ==>
      children[i].id in after && after[children[i].id] == Node(Some(p), children[i])
  }

  /** The tree `program create` starts from. */
  lemma SeedIsOk(pid: string, root: TaskContract)
    requires ValidTask(root) && root.id == pid && root.constraints == [] && PositiveBudget(root.budget)
    ensures TreeOk(pid, map[pid := Node(None, root)])
  {}

  lemma {:induction false} RootIsShortest(pid: string, tree: Tree, n: string)
    requires TreeOk(pid, tree) && n in tree
    ensures |pid| <= |n|
    decreases |n|
  {
    if n != pid {
      assert LinkOk(tree, n) && NodeOk(tree, n) && NodeOk(tree, tree[n].parentId.value);
      RootIsShortest(pid, tree, tree[n].parentId.value);
    }
  }

  /** A stored id of the form `p.k` belongs to a child of `p`: ids determine parents. */
  lemma ChildIdIsAKid(pid: string, tree: Tree, p: string, k: nat)
    requires TreeOk(pid, tree) && p in tree && ChildId(p, k) in tree
    ensures ChildId(p, k) in Kids(tree, p)
  {
    var n := ChildId(p, k);
    RootIsShortest(pid, tree, p);
    assert n != pid;
    assert LinkOk(tree, n) && NodeOk(tree, n) && NodeOk(tree, tree[n].parentId.value);
    var q := tree[n].parentId.value;
    var j: nat :| IsChild(tree[q].task, tree[n].task, j);
    ChildIdInjective(p, k, q, j + 1);
  }

  /** Decomposing a node again with at least one story always collides, on the child numbered 1. */
  lemma SecondDecompositionCollides(pid: string, tree: Tree, p: string)
    requires TreeOk(pid, tree) && p in tree
    ensures Kids(tree, p) != {} ==> ChildId(p, 1) in tree
    ensures Kids(tree, p) == {} ==> forall k: nat :: ChildId(p, k) !in tree
  {
    assert BatchOk(tree, p);
    forall k: nat | ChildId(p, k) in tree { ChildIdIsAKid(pid, tree, p, k); }
  }

  // ----- planting a batch: keys, children and sums -----

  function Ids(children: seq<TaskContract>): set<string> {
    set i | 0 <= i < |children| :: children[i].id
  }

  predicate Distinct(children: seq<TaskContract>) {
    forall i, j :: 0 <= i < j < |children| ==> children[i].id != children[j].id
  }

  /** New ids, all different, under a parent that has no child yet. */
  predicate Fresh(before: Tree, p: string, children: seq<TaskContract>) {
    && Distinct(children) && Ids(children) !! before.Keys
    && (children != [] ==> Kids(before, p) == {})
  }

  function BatchSum(children: seq<TaskContract>, d: Dimension): real {
    if children == [] then 0.0
    else BatchSum(children[..|children| - 1], d) + Amount(children[|children| - 1].budget, d)
  }

  lemma {:induction false} SumOfBatch(f: string -> real, children: seq<TaskContract>, d: Dimension)
    requires Distinct(children)
    requires forall i :: 0 <= i < |children| ==> f(children[i].id) == Amount(children[i].budget, d)
    ensures Sum(f, Ids(children)) == BatchSum(children, d)
  {
    if children != [] {
      var init, last := children[..|children| - 1], children[|children| - 1];
      SumOfBatch(f, init, d);
      LastId(children);
      SumPick(f, Ids(children), last.id);
    }
  }

  lemma LastId(children: seq<TaskContract>)
    requires children != [] && Distinct(children)
    ensures children[|children| - 1].id in Ids(children)
    ensures Ids(children) - {children[|children| - 1].id} == Ids(children[..|children| - 1])
  {}

  /** No stored node points at a missing parent. */
  predicate Closed(tree: Tree) {
    forall n :: n in tree && tree[n].parentId.Some? ==> tree[n].parentId.value in tree
  }

  lemma PlantedKids(before: Tree, after: Tree, p: string, children: seq<TaskContract>, n: string)
    requires Closed(before) && IsPlanted(before, after, p, children) && Fresh(before, p, children)
    requires p in before && n in after
    ensures n in before && (n != p || children == []) ==> Kids(after, n) == Kids(before, n)
    ensures n == p && children != [] ==> Kids(after, n) == Ids(children)
    ensures n !in before ==> Kids(after, n) == {}
  {
    forall m | m in after && m !in before
      ensures m in Ids(children) && after[m].parentId == Some(p)
    {
      var i :| 0 <= i < |children| && m == children[i].id;
    }
    forall m | m in Ids(children)
      ensures m in after && after[m].parentId == Some(p)
    {
      var i :| 0 <= i < |children| && m == children[i].id;
    }
    assert forall m :: m in before && before[m].parentId == Some(p) ==> m in Kids(before, p);
  }

  lemma PlantedSums(before: Tree, after: Tree, p: string, children: seq<TaskContract>, n: string, d: Dimension)
    requires Closed(before) && IsPlanted(before, after, p, children) && Fresh(before, p, children)
    requires p in before && n in after
    ensures n in before && (n != p || children == []) ==>
      Sum(Weight(after, d), Kids(after, n)) == Sum(Weight(before, d), Kids(before, n))
    ensures n == p && children != [] ==> Sum(Weight(after, d), Kids(after, n)) == BatchSum(children, d)
    ensures n !in before ==> Sum(Weight(after, d), Kids(after, n)) == 0.0
  {
    PlantedKids(before, after, p, children, n);
    SumAgree(Weight(after, d), Weight(before, d), Kids(before, n));
    SumOfBatch(Weight(after, d), children, d);
  }

  // ----- growth keeps the tree well formed -----

  /** A decomposition result as the tree sees it. */
  ghost predicate IsBatch(parent: TaskContract, children: seq<TaskContract>) {
    && (forall i :: 0 <= i < |children| ==> IsChild(parent, children[i], i))
    && (forall d: Dimension :: BatchSum(children, d) <= Amount(parent.budget, d))
  }

  lemma {:induction false} BatchSumIsChildSum(parent: TaskContract, inherited: seq<string>, stories: seq<StorySpec>,
                                              d: Dimension)
    ensures BatchSum(ToChildren(parent, inherited, stories), d) == ChildSum(stories, d)
  {
    if stories != [] {
      var m := |stories| - 1;
      BatchSumIsChildSum(parent, inherited, stories[..m], d);
      assert ToChildren(parent, inherited, stories)[..m] == ToChildren(parent, inherited, stories[..m]);
    }
  }

  lemma BatchStaysWithin(parent: TaskContract, inherited: seq<string>, stories: seq<StorySpec>, d: Dimension)
    requires WithinBudget(parent, stories)
    ensures BatchSum(ToChildren(parent, inherited, stories), d) <= Amount(parent.budget, d)
  {
    BatchSumIsChildSum(parent, inherited, stories, d);
  }

  /** Whatever the scrum faculty accepts is a batch. */
  lemma DecompositionIsABatch(parent: TaskContract, stories: seq<StorySpec>)
    requires Acceptable(parent, stories)
    ensures IsBatch(parent, ToChildren(parent, Free(parent.constraints), stories))
  {
    var children := ToChildren(parent, Free(parent.constraints), stories);
    forall d { BatchStaysWithin(parent, Free(parent.constraints), stories, d); }
    forall i | 0 <= i < |children|
      ensures IsChild(parent, children[i], i)
    {
      ChildrenAreSound(parent, stories, i);
    }
  }

  /** A batch is fresh exactly when its node has no child yet (or the batch is empty). */
  lemma BatchIsFresh(pid: string, before: Tree, p: string, children: seq<TaskContract>)
    requires TreeOk(pid, before) && p in before && IsBatch(before[p].task, children)
    ensures Distinct(children)
    ensures Fresh(before, p, children) <==> children == [] || ChildId(p, 1) !in before
  {
    assert NodeOk(before, p);
    forall i, j | 0 <= i < j < |children|
      ensures children[i].id != children[j].id
    {
      assert IsChild(before[p].task, children[i], i) && IsChild(before[p].task, children[j], j);
      if children[i].id == children[j].id { ChildIdInjective(p, i + 1, p, j + 1); }
    }
    SecondDecompositionCollides(pid, before, p);
    forall i | 0 <= i < |children|
      ensures children[i].id == ChildId(p, i + 1)
    {
      assert IsChild(before[p].task, children[i], i);
    }
    if children != [] {
      assert children[0].id in Ids(children);
      if ChildId(p, 1) in before { ChildIdIsAKid(pid, before, p, 1); }
    }
  }

  lemma GrowthKeepsNodes(pid: string, before: Tree, after: Tree, p: string, children: seq<TaskContract>, n: string)
    requires TreeOk(pid, before) && p in before && IsBatch(before[p].task, children)
    requires IsPlanted(before, after, p, children) && n in after
    ensures NodeOk(after, n) && (n != pid ==> LinkOk(after, n))
  {
    if n in before {
      assert NodeOk(before, n);
      if n != pid {
        assert LinkOk(before, n);
        assert after[before[n].parentId.value] == before[before[n].parentId.value];
      }
    } else {
      var i :| 0 <= i < |children| && n == children[i].id;
      assert IsChild(before[p].task, children[i], i);
      assert after[p] == before[p];
    }
  }

  lemma GrowthKeepsSums(pid: string, before: Tree, after: Tree, p: string, children: seq<TaskContract>, n: string,
                        d: Dimension)
    requires p in before && IsBatch(before[p].task, children) && Closed(before) && n in after
    requires IsPlanted(before, after, p, children) && Fresh(before, p, children)
    requires n in before ==> BatchOk(before, n)
    requires n !in before ==> Amount(after[n].task.budget, d) >= 0.0
    ensures Sum(Weight(after, d), Kids(after, n)) <= Amount(after[n].task.budget, d)
  {
    PlantedSums(before, after, p, children, n, d);
  }

  lemma GrowthKeepsFirstChild(before: Tree, after: Tree, p: string, children: seq<TaskContract>, n: string)
    requires p in before && before[p].task.id == p && IsBatch(before[p].task, children) && Closed(before) && n in after
    requires IsPlanted(before, after, p, children) && Fresh(before, p, children)
    requires n in before ==> BatchOk(before, n)
    ensures Kids(after, n) != {} ==> ChildId(n, 1) in after
  {
    PlantedKids(before, after, p, children, n);
    if n == p && children != [] { assert IsChild(before[p].task, children[0], 0); }
  }

  lemma GrowthKeepsBatches(pid: string, before: Tree, after: Tree, p: string, children: seq<TaskContract>, n: string)
    requires p in before && before[p].task.id == p && IsBatch(before[p].task, children) && Closed(before) && n in after
    requires IsPlanted(before, after, p, children) && Fresh(before, p, children)
    requires n in before ==> BatchOk(before, n)
    requires ValidTask(after[n].task)
    ensures BatchOk(after, n)
  {
    forall d { GrowthKeepsSums(pid, before, after, p, children, n, d); }
    GrowthKeepsFirstChild(before, after, p, children, n);
  }

  /** An accepted first decomposition of a stored node keeps the whole tree well formed. */
  lemma GrowthKeepsTree(pid: string, before: Tree, after: Tree, p: string, children: seq<TaskContract>)
    requires TreeOk(pid, before) && p in before && IsBatch(before[p].task, children)
    requires IsPlanted(before, after, p, children) && Fresh(before, p, children)
    ensures TreeOk(pid, after)
  {
    TreeShortens(pid, before);
    forall n | n in after { GrowthKeepsNodes(pid, before, after, p, children, n); }
    assert NodeOk(before, p);
    forall n | n in after
      ensures BatchOk(after, n)
    {
      assert NodeOk(after, n);
      GrowthKeepsBatches(pid, before, after, p, children, n);
    }
  }
}

/** The tree a program's rows form, and the whole-tree facts that local decomposition checks add up to. */
module LedgerTree {
  import opened Prelude
  import opened ConstraintTags
  import opened Scrum
  import opened Sums

  /** The part of a row no transition touches. */
  datatype Node = Node(parentId: Option<string>, task: TaskContract)

  type Tree = map<string, Node>

  function Kids(tree: Tree, p: string): set<string> {
    set n | n in tree && tree[n].parentId == Some(p)
  }

  function Weight(tree: Tree, d: Dimension): string -> real {
    n => if n in tree then Amount(tree[n].task.budget, d) else 0.0
  }

  function AltitudeOf(tree: Tree, n: string): Option<Altitude>
    requires n in tree
  {
    MeaningOf(tree[n].task.constraints).altitude
  }

  predicate NodeOk(tree: Tree, n: string)
    requires n in tree
  {
    ValidTask(tree[n].task) && tree[n].task.id == n && WellTagged(tree[n].task.constraints)
  }

  /** A non-root node is the k-th child of a stored parent. */
  ghost predicate LinkOk(tree: Tree, n: string)
    requires n in tree
  {
    && tree[n].parentId.Some? && tree[n].parentId.value in tree
    && exists k: nat :: IsChild(tree[tree[n].parentId.value].task, tree[n].task, k)
  }

  ghost predicate RootOk(pid: string, tree: Tree) {
    && pid in tree && tree[pid].parentId.None? && tree[pid].task.constraints == []
    && PositiveBudget(tree[pid].task.budget)
  }

  /** Children were inserted as one batch: the budget sum holds, and a parent with any child has its `.1`. */
  ghost predicate BatchOk(tree: Tree, p: string)
    requires p in tree
  {
    && (forall d: Dimension :: Sum(Weight(tree, d), Kids(tree, p)) <= Amount(tree[p].task.budget, d))
    && (Kids(tree, p) != {} ==> ChildId(p, 1) in tree)
  }

  ghost predicate TreeOk(pid: string, tree: Tree) {
    && RootOk(pid, tree)
    && (forall n :: n in tree ==> NodeOk(tree, n))
    && (forall n :: n in tree && n != pid ==> LinkOk(tree, n))
    && (forall n :: n in tree ==> BatchOk(tree, n))
  }

  // ----- the parent chain -----

  predicate Shortens(tree: Tree) {
    forall n :: n in tree && tree[n].parentId.Some? ==> tree[n].parentId.value in tree && |tree[n].parentId.value| < |n|
  }

  lemma TreeShortens(pid: string, tree: Tree)
    requires TreeOk(pid, tree)
    ensures Shortens(tree)
  {}

  /** `a` is `n` or one of its ancestors. */
  predicate AncestorOrSelf(tree: Tree, a: string, n: string)
    requires Shortens(tree) && n in tree
    decreases |n|
  {
    a == n || (tree[n].parentId.Some? && AncestorOrSelf(tree, a, tree[n].parentId.value))
  }

  function Depth(tree: Tree, n: string): nat
    requires Shortens(tree) && n in tree
    decreases |n|
  {
    if tree[n].parentId.None? then 0 else 1 + Depth(tree, tree[n].parentId.value)
  }

  /** Pairwise non-ancestors. */
  predicate Antichain(tree: Tree, s: set<string>)
    requires Shortens(tree)
  {
    && s <= tree.Keys
    && forall a, b :: a in s && b in s && AncestorOrSelf(tree, a, b) ==> a == b
  }

  lemma {:induction false} AncestorIsShallower(tree: Tree, a: string, n: string)
    requires Shortens(tree) && n in tree && AncestorOrSelf(tree, a, n)
    ensures a in tree && Depth(tree, a) <= Depth(tree, n)
    ensures Depth(tree, a) == Depth(tree, n) ==> a == n
    ensures Depth(tree, a) + 1 == Depth(tree, n) ==> tree[n].parentId == Some(a)
    decreases |n|
  {
    if a != n { AncestorIsShallower(tree, a, tree[n].parentId.value); }
  }

  lemma {:induction false} AncestorTransitive(tree: Tree, a: string, b: string, n: string)
    requires Shortens(tree) && b in tree && n in tree
    requires AncestorOrSelf(tree, a, b) && AncestorOrSelf(tree, b, n)
    ensures AncestorOrSelf(tree, a, n)
    decreases |n|
  {
    if b != n { AncestorTransitive(tree, a, b, tree[n].parentId.value); }
  }

  /** Every chain ends at the root. */
  lemma {:induction false} RootIsAncestor(pid: string, tree: Tree, n: string)
    requires TreeOk(pid, tree) && Shortens(tree) && n in tree
    ensures AncestorOrSelf(tree, pid, n)
    decreases |n|
  {
    if n != pid {
      assert LinkOk(tree, n);
      RootIsAncestor(pid, tree, tree[n].parentId.value);
    }
  }

  // ----- budgets over the whole tree -----

  ghost function DepthWeight(tree: Tree): string -> real
    requires Shortens(tree)
  {
    n => if n in tree then Depth(tree, n) as real else 0.0
  }

  lemma {:induction false} Deepest(tree: Tree, s: set<string>) returns (n: string)
    requires Shortens(tree) && s != {} && s <= tree.Keys
    ensures n in s && forall m :: m in s ==> Depth(tree, m) <= Depth(tree, n)
    decreases |s|
  {
    var x :| x in s;
    if s == {x} {
      n := x;
    } else {
      assert s == {x} + (s - {x});
      var m := Deepest(tree, s - {x});
      n := if Depth(tree, m) < Depth(tree, x) then x else m;
    }
  }

  /** Replace all members under one parent by the parent. */
  function Lift(tree: Tree, s: set<string>, p: string): set<string> {
    s - Kids(tree, p) + {p}
  }

  /** Lifting the deepest siblings of an antichain keeps it an antichain. */
  lemma LiftKeepsAntichain(tree: Tree, s: set<string>, n: string, p: string)
    requires Shortens(tree) && Antichain(tree, s)
    requires n in s && tree[n].parentId == Some(p)
    requires forall m :: m in s ==> Depth(tree, m) <= Depth(tree, n)
    ensures p !in s && Antichain(tree, Lift(tree, s, p))
  {
    assert AncestorOrSelf(tree, p, n);
    forall b | b in s && AncestorOrSelf(tree, p, b)
      ensures b in Kids(tree, p)
    {
      AncestorIsShallower(tree, p, b);
      assert b != p;
    }
    forall a | a in s
      ensures !AncestorOrSelf(tree, a, p)
    {
      if AncestorOrSelf(tree, a, p) {
        AncestorTransitive(tree, a, p, n);
        AncestorIsShallower(tree, a, p);
      }
    }
  }

  lemma SumOfLift(tree: Tree, f: string -> real, s: set<string>, p: string)
    requires p !in s
    ensures Sum(f, s) == Sum(f, s - Kids(tree, p)) + Sum(f, s * Kids(tree, p))
    ensures Sum(f, Lift(tree, s, p)) <= Sum(f, s - Kids(tree, p)) + f(p)
    ensures Sum(f, Lift(tree, s, p)) >= Sum(f, s - Kids(tree, p)) + f(p)
  {
    var rest, taken := s - Kids(tree, p), s * Kids(tree, p);
    assert s == rest + taken;
    SumSplit(f, rest, taken);
    SumPick(f, Lift(tree, s, p), p);
    assert Lift(tree, s, p) - {p} == rest;
  }

  /** Lifting loses no budget. */
  lemma LiftKeepsBudget(pid: string, tree: Tree, s: set<string>, p: string, d: Dimension)
    requires TreeOk(pid, tree) && p in tree && p !in s
    ensures Sum(Weight(tree, d), s) <= Sum(Weight(tree, d), Lift(tree, s, p))
  {
    SumOfLift(tree, Weight(tree, d), s, p);
    WeightsNonNegative(pid, tree, d);
    SumMonotone(Weight(tree, d), s * Kids(tree, p), Kids(tree, p));
    assert BatchOk(tree, p);
  }

  /** Lifting makes the set strictly shallower. */
  lemma LiftIsShallower(tree: Tree, s: set<string>, n: string, p: string)
    requires Shortens(tree) && p !in s && n in s && n in tree && tree[n].parentId == Some(p)
    ensures 0.0 <= Sum(DepthWeight(tree), Lift(tree, s, p)) <= Sum(DepthWeight(tree), s) - 1.0
  {
    var h, taken := DepthWeight(tree), s * Kids(tree, p);
    SumOfLift(tree, h, s, p);
    SumPick(h, taken, n);
    SumNonNegative(h, taken - {n});
    SumNonNegative(h, s - Kids(tree, p));
  }

  lemma WeightsNonNegative(pid: string, tree: Tree, d: Dimension)
    requires TreeOk(pid, tree)
    ensures forall n :: Weight(tree, d)(n) >= 0.0
  {}

  /**
   * Whole-tree budget: on every dimension, pairwise non-ancestors together never exceed the root's budget.
   * Each step replaces the deepest siblings by their parent, whose own budget covers all of its children.
   */
  lemma {:induction false} AntichainWithinRoot(pid: string, tree: Tree, s: set<string>, d: Dimension)
    requires TreeOk(pid, tree) && Shortens(tree) && Antichain(tree, s)
    ensures Sum(Weight(tree, d), s) <= Amount(tree[pid].task.budget, d)
    decreases Sum(DepthWeight(tree), s)
  {
    WeightsNonNegative(pid, tree, d);
    if s == {} {
      assert Weight(tree, d)(pid) >= 0.0;
    } else {
      var n := Deepest(tree, s);
      if n == pid {
        forall m | m in s ensures m == pid { RootIsAncestor(pid, tree, m); }
        assert s == {pid};
        SumPick(Weight(tree, d), {pid}, pid);
        assert {pid} - {pid} == {};
      } else {
        assert LinkOk(tree, n);
        var p := tree[n].parentId.value;
        LiftKeepsAntichain(tree, s, n, p);
        LiftKeepsBudget(pid, tree, s, p, d);
        LiftIsShallower(tree, s, n, p);
        AntichainWithinRoot(pid, tree, Lift(tree, s, p), d);
      }
    }
  }

  function Leaves(tree: Tree): set<string> {
    set n | n in tree && Kids(tree, n) == {}
  }

  /** The leaves of a program, together, stay within the root's budget. */
  lemma LeavesWithinRoot(pid: string, tree: Tree, d: Dimension)
    requires TreeOk(pid, tree)
    ensures Sum(Weight(tree, d), Leaves(tree)) <= Amount(tree[pid].task.budget, d)
  {
    TreeShortens(pid, tree);
    forall a, b | a in Leaves(tree) && b in tree && AncestorOrSelf(tree, a, b)
      ensures a == b
    {
      LeafHasNoDescendant(tree, a, b);
    }
    AntichainWithinRoot(pid, tree, Leaves(tree), d);
  }

  lemma {:induction false} LeafHasNoDescendant(tree: Tree, a: string, n: string)
    requires Shortens(tree) && n in tree && a in Leaves(tree) && AncestorOrSelf(tree, a, n)
    ensures a == n
    decreases |n|
  {
    assert tree[n].parentId == Some(a) ==> n in Kids(tree, a);
    if a != n { LeafHasNoDescendant(tree, a, tree[n].parentId.value); }
  }

  // ----- altitude, inheritance and size -----

  function Height(a: Option<Altitude>): nat {
    match a case None => 3 case Some(Epic) => 2 case Some(Story) => 1 case Some(Task) => 0
  }

  lemma RootHasNoAltitude(pid: string, tree: Tree)
    requires TreeOk(pid, tree)
    ensures AltitudeOf(tree, pid).None?
  {}

  /** Going down one link always loses height, so no node is deeper than three. */
  lemma {:induction false} DepthIsBounded(pid: string, tree: Tree, n: string)
    requires TreeOk(pid, tree) && Shortens(tree) && n in tree
    ensures Depth(tree, n) + Height(AltitudeOf(tree, n)) <= 3
    ensures AltitudeOf(tree, n).None? <==> n == pid
    decreases |n|
  {
    RootHasNoAltitude(pid, tree);
    if n != pid {
      LinkLosesHeight(tree, n);
      DepthIsBounded(pid, tree, tree[n].parentId.value);
    }
  }

  lemma LinkLosesHeight(tree: Tree, n: string)
    requires n in tree && LinkOk(tree, n)
    ensures AltitudeOf(tree, n).Some? && Height(AltitudeOf(tree, n)) < Height(AltitudeOf(tree, tree[n].parentId.value))
  {}

  /** Exactly one rung below the parent, unless the parent is the root. */
  lemma AltitudeDescends(pid: string, tree: Tree, n: string)
    requires TreeOk(pid, tree) && n in tree && n != pid
    ensures tree[n].parentId.Some? && tree[n].parentId.value in tree && AltitudeOf(tree, n).Some?
    ensures tree[n].parentId.value != pid ==>
      AltitudeOf(tree, tree[n].parentId.value).Some?
      && ChildAltitude(AltitudeOf(tree, tree[n].parentId.value).value) == AltitudeOf(tree, n)
  {}

  /** Free-form constraints only ever grow at the end on the way down. */
  lemma {:induction false} ConstraintsInherit(pid: string, tree: Tree, a: string, n: string)
    requires TreeOk(pid, tree) && Shortens(tree) && n in tree && AncestorOrSelf(tree, a, n)
    ensures a in tree && Free(tree[a].task.constraints) <= Free(tree[n].task.constraints)
    decreases |n|
  {
    if a != n {
      assert LinkOk(tree, n);
      ConstraintsInherit(pid, tree, a, tree[n].parentId.value);
    }
  }

  function Level(tree: Tree, i: nat): set<string>
    requires Shortens(tree)
  {
    set n | n in tree && Depth(tree, n) == i
  }

  lemma LevelIsAntichain(tree: Tree, i: nat)
    requires Shortens(tree)
    ensures Antichain(tree, Level(tree, i))
  {
    forall a, b | a in Level(tree, i) && b in Level(tree, i) && AncestorOrSelf(tree, a, b)
      ensures a == b
    {
      AncestorIsShallower(tree, a, b);
    }
  }

  lemma TokenSlicesAreWhole(pid: string, tree: Tree, n: string)
    requires TreeOk(pid, tree) && n in tree && n != pid
    ensures Weight(tree, Tokens)(n) >= 1.0
  {}

  /** A level below the root is an antichain of whole token slices, so it has at most T members. */
  lemma LevelSize(pid: string, tree: Tree, i: nat)
    requires TreeOk(pid, tree) && Shortens(tree) && i > 0
    ensures |Level(tree, i)| <= tree[pid].task.budget.tokens
  {
    LevelIsAntichain(tree, i);
    AntichainWithinRoot(pid, tree, Level(tree, i), Tokens);
    forall n | n in Level(tree, i) { TokenSlicesAreWhole(pid, tree, n); }
    SumCounts(Weight(tree, Tokens), Level(tree, i));
  }

  /** With T root tokens a program never holds more than 3T + 1 nodes. */
  lemma TreeSize(pid: string, tree: Tree)
    requires TreeOk(pid, tree)
    ensures |tree| <= 3 * tree[pid].task.budget.tokens + 1
  {
    TreeShortens(pid, tree);
    forall n | n in tree
      ensures n in {pid} + Level(tree, 1) + Level(tree, 2) + Level(tree, 3)
    {
      DepthIsBounded(pid, tree, n);
      if Depth(tree, n) == 0 && n != pid { assert LinkOk(tree, n); }
    }
    LevelSize(pid, tree, 1);
    LevelSize(pid, tree, 2);
    LevelSize(pid, tree, 3);
    UnionSize({pid} + Level(tree, 1) + Level(tree, 2), Level(tree, 3));
    UnionSize({pid} + Level(tree, 1), Level(tree, 2));
    UnionSize({pid}, Level(tree, 1));
    SubsetSize(tree.Keys, {pid} + Level(tree, 1) + Level(tree, 2) + Level(tree, 3));
  }

  lemma UnionSize<T>(a: set<T>, b: set<T>)
    ensures |a + b| <= |a| + |b|
  {}

  lemma {:induction false} SubsetSize<T>(a: set<T>, b: set<T>)
    requires a <= b
    ensures |a| <= |b|
    decreases |a|
  {
    if a != {} {
      var x :| x in a;
      SubsetSize(a - {x}, b - {x});
    }
  }
}

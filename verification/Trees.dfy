/**
 * The breadth-first b-ary tree that the benchmark builds over stream indices
 * (internal/benchmark/trees/trees.go).
 */
module Trees {
  import opened Wrappers
  import opened Numbers
  import opened Sequences
  import opened Text

  datatype TreeNode = TreeNode(parent: int, children: seq<int>, index: int, isLeaf: bool)

  /** Go's zero value of the struct: what make() leaves in every slot. */
  const ZERO_NODE := TreeNode(0, [], 0, false)

  datatype Tree = Tree(nodes: array<TreeNode>, maxDepth: int, qtyStreams: int, branchingFactor: int)

  // ---- The closed form ---------------------------------------------------------------------

  function ParentOf(b: int, i: int): int
    requires b >= 1
  {
    (i - 1) / b
  }

  function ChildrenOf(n: int, b: int, i: int): seq<int> {
    Range(b * i + 1, Min(n, b * i + b + 1))
  }

  /** Slot i of a finished tree. Without branching only the root is ever written. */
  function ClosedNode(n: int, b: int, i: int): TreeNode
    requires 0 <= i < n
  {
    if i == 0 then TreeNode(-1, ChildrenOf(n, b, 0), 0, n == 1)
    else if b < 1 then ZERO_NODE
    else TreeNode(ParentOf(b, i), ChildrenOf(n, b, i), i, ChildrenOf(n, b, i) == [])
  }

  predicate ClosedAt(nodes: seq<TreeNode>, b: int, i: int)
    requires 0 <= i < |nodes|
  {
    nodes[i] == ClosedNode(|nodes|, b, i)
  }

  ghost predicate IsClosedForm(nodes: seq<TreeNode>, b: int) {
    forall i :: 0 <= i < |nodes| ==> ClosedAt(nodes, b, i)
  }

  lemma MulMonotone(b: int, x: int, y: int)
    requires b >= 0 && x <= y
    ensures b * x <= b * y
  {
  }

  lemma MulSucc(b: int, x: int)
    ensures b * (x + 1) == b * x + b
  {
  }

  lemma Quotient(m: int, b: int)
    requires b >= 1
    ensures b * (m / b) <= m < b * (m / b) + b
  {
  }

  lemma DivBelow(m: int, b: int)
    requires m >= 0 && b >= 1
    ensures 0 <= m / b <= m
  {
    var q := m / b;
    assert b * q <= m;
    MulMonotone(q, 1, b);
  }

  /** j is a child of i exactly when j lies in the run after b*i. */
  lemma ParentRun(b: int, i: int, j: int)
    requires b >= 1
    ensures ParentOf(b, j) == i <==> b * i + 1 <= j <= b * i + b
  {
    var q := ParentOf(b, j);
    Quotient(j - 1, b);
    if q < i {
      MulSucc(b, q);
      MulMonotone(b, q + 1, i);
    } else if q > i {
      MulSucc(b, i);
      MulMonotone(b, i + 1, q);
    }
  }

  // ---- NewTree -----------------------------------------------------------------------------

  /** A node that has been created but not yet taken from the queue. */
  ghost function QueuedNode(b: int, j: int): TreeNode
    requires b >= 1 || j == 0
  {
    if j == 0 then TreeNode(-1, [], 0, false) else TreeNode(ParentOf(b, j), [], j, true)
  }

  /** Slots from first on, when nodes below nextIndex exist and those from first on are still queued. */
  ghost predicate QueuedFrom(nodes: seq<TreeNode>, b: int, first: int, nextIndex: int) {
    && (b >= 1 || nextIndex <= 1)
    && 0 <= first
    && (forall j :: first <= j < nextIndex && j < |nodes| ==> nodes[j] == QueuedNode(b, j))
    && (forall j :: nextIndex <= j < |nodes| && first <= j ==> nodes[j] == ZERO_NODE)
  }

  ghost predicate ClosedBelow(nodes: seq<TreeNode>, b: int, p: int) {
    forall j :: 0 <= j < p && j < |nodes| ==> nodes[j] == ClosedNode(|nodes|, b, j)
  }

  /** Node p has left the queue and holds the children start .. nextIndex-1 so far. */
  ghost predicate Expanding(nodes: seq<TreeNode>, b: int, p: int, start: int, nextIndex: int) {
    && 0 <= p < start <= nextIndex <= |nodes|
    && ClosedBelow(nodes, b, p)
    && QueuedFrom(nodes, b, p + 1, nextIndex)
    && nodes[p] == QueuedNode(b, p).(children := Range(start, nextIndex), isLeaf := p != 0 && nextIndex == start)
  }

  /** Where the run of children of node p starts; without branching there is only the root. */
  ghost function RunStart(n: int, b: int, p: int): int {
    if b >= 1 then Min(n, b * p + 1) else 1
  }

  /** Between two turns of the queue loop: p nodes have left the queue and those below nextIndex exist. */
  ghost predicate Building(nodes: seq<TreeNode>, b: int, p: int, nextIndex: int) {
    && 0 <= p <= nextIndex <= |nodes|
    && nextIndex == RunStart(|nodes|, b, p)
    && ClosedBelow(nodes, b, p)
    && QueuedFrom(nodes, b, p, nextIndex)
  }

  /** Giving node p one more child. */
  ghost function WithChild(nodes: seq<TreeNode>, p: int, child: int): seq<TreeNode>
    requires 0 <= p < child < |nodes|
  {
    nodes[child := TreeNode(p, [], child, true)]
         [p := nodes[p].(children := nodes[p].children + [child], isLeaf := false)]
  }

  lemma ExpandStep(nodes: seq<TreeNode>, b: int, p: int, start: int, nextIndex: int)
    requires b >= 1 && Expanding(nodes, b, p, start, nextIndex)
    requires start == b * p + 1 && nextIndex < |nodes| && nextIndex < start + b
    ensures Expanding(WithChild(nodes, p, nextIndex), b, p, start, nextIndex + 1)
  {
    ParentRun(b, p, nextIndex);
    RangeSnoc(start, nextIndex);
  }

  /** Where the run of children of node p ends, and that of node p+1 begins. */
  lemma RunEnd(n: int, b: int, p: int, i: int, nextIndex: int)
    requires b >= 1 && 0 <= i <= b && (i >= b || nextIndex >= n)
    requires nextIndex == RunStart(n, b, p) + i && nextIndex <= n
    ensures nextIndex == Min(n, b * p + b + 1) == RunStart(n, b, p + 1)
  {
  }

  lemma SingleNode(nodes: seq<TreeNode>, b: int)
    requires nodes == [TreeNode(-1, [], 0, true)]
    ensures IsClosedForm(nodes, b)
  {
    assert nodes[0] == ClosedNode(1, b, 0);
  }

  lemma BuildStart(nodes: seq<TreeNode>, b: int)
    requires |nodes| >= 2 && nodes[0] == TreeNode(-1, [], 0, false)
    requires forall j :: 1 <= j < |nodes| ==> nodes[j] == ZERO_NODE
    ensures Building(nodes, b, 0, 1)
  {
  }

  lemma StartExpanding(nodes: seq<TreeNode>, b: int, p: int, nextIndex: int)
    requires |nodes| >= 2 && Building(nodes, b, p, nextIndex) && p < nextIndex
    ensures Expanding(nodes, b, p, nextIndex, nextIndex)
    ensures nextIndex == RunStart(|nodes|, b, p) && (b >= 1 || p == 0)
  {
    if b >= 1 {
      assert b * p >= p by { assert (b - 1) * p >= 0; }
    }
  }

  lemma ExpandDone(nodes: seq<TreeNode>, b: int, p: int, start: int, nextIndex: int)
    requires |nodes| >= 2 && Expanding(nodes, b, p, start, nextIndex)
    requires start == RunStart(|nodes|, b, p) && nextIndex == RunStart(|nodes|, b, p + 1)
    requires b >= 1 || p == 0
    ensures Building(nodes, b, p + 1, nextIndex)
  {
    assert b * (p + 1) == b * p + b;
    assert Range(start, nextIndex) == ChildrenOf(|nodes|, b, p);
    assert ClosedAt(nodes, b, p);
  }

  /** The queue runs dry only when every node has been created. */
  lemma NothingLinked(nodes: seq<TreeNode>, b: int)
    requires IsClosedForm(nodes, b)
    ensures b < 1 ==> forall i :: 1 <= i < |nodes| ==> nodes[i] == TreeNode(0, [], 0, false)
  {
    forall i | 1 <= i < |nodes| && b < 1 ensures nodes[i] == TreeNode(0, [], 0, false) {
      assert ClosedAt(nodes, b, i);
    }
  }

  lemma BuildDone(nodes: seq<TreeNode>, b: int, p: int)
    requires |nodes| >= 1 && Building(nodes, b, p, p)
    ensures IsClosedForm(nodes, b)
  {
    if b >= 1 {
      assert b * p >= p by { assert (b - 1) * p >= 0; }
      assert p == |nodes|;
    }
  }

  /** The inner loop of NewTree: give the dequeued node its children and put them on the queue. */
  method AddChildren(nodes: array<TreeNode>, b: int, parentIndex: int, queue: seq<int>, nextIndex: int)
    returns (queue': seq<int>, nextIndex': int)
    requires Expanding(nodes[..], b, parentIndex, nextIndex, nextIndex)
    requires nextIndex == RunStart(nodes.Length, b, parentIndex) && (b >= 1 || parentIndex == 0)
    requires queue == Range(parentIndex + 1, nextIndex)
    modifies nodes
    ensures nextIndex <= nextIndex'
    ensures Expanding(nodes[..], b, parentIndex, nextIndex, nextIndex')
    ensures nextIndex' == RunStart(nodes.Length, b, parentIndex + 1)
    ensures queue' == Range(parentIndex + 1, nextIndex')
  {
    queue', nextIndex' := queue, nextIndex;
    var i := 0;
    while i < b && nextIndex' < nodes.Length
      invariant 0 <= i && (i <= b || i == 0)
      invariant nextIndex' == nextIndex + i
      invariant queue' == Range(parentIndex + 1, nextIndex')
      invariant Expanding(nodes[..], b, parentIndex, nextIndex, nextIndex')
      decreases b - i
    {
      ghost var before := nodes[..];
      var childIndex := nextIndex';
      nodes[childIndex] := TreeNode(parentIndex, [], childIndex, true);
      nodes[parentIndex] := nodes[parentIndex].(children := nodes[parentIndex].children + [childIndex]);
      nodes[parentIndex] := nodes[parentIndex].(isLeaf := false);
      queue' := queue' + [childIndex];
      nextIndex' := nextIndex' + 1;
      i := i + 1;
      assert nodes[..] == WithChild(before, parentIndex, childIndex);
      ExpandStep(before, b, parentIndex, nextIndex, childIndex);
      RangeSnoc(parentIndex + 1, childIndex);
    }
    if b >= 1 {
      RunEnd(nodes.Length, b, parentIndex, i, nextIndex');
    }
  }

  method NewTree(qtyStreams: int, branchingFactor: int) returns (tree: Tree)
    requires qtyStreams >= 1
    ensures fresh(tree.nodes)
    ensures tree.nodes.Length == qtyStreams
    ensures tree.qtyStreams == qtyStreams && tree.branchingFactor == branchingFactor
    ensures IsClosedForm(tree.nodes[..], branchingFactor)
    ensures branchingFactor >= 2 ==> tree.maxDepth == CalculateTreeDepth(qtyStreams, branchingFactor)
    ensures branchingFactor < 1 ==> forall i :: 1 <= i < qtyStreams ==> tree.nodes[i] == TreeNode(0, [], 0, false)
  {
    hide CalculateTreeDepth, IsClosedForm, Building, Expanding, RunStart;
    var n, b := qtyStreams, branchingFactor;
    var maxDepth: int := *; // what the floating-point formula gives when its logarithm is not usable
    if b >= 2 {
      maxDepth := CalculateTreeDepth(n, b);
    }
    var nodes := new TreeNode[n](_ => ZERO_NODE);
    tree := Tree(nodes, maxDepth, n, b);
    nodes[0] := TreeNode(-1, [], 0, false);
    if n == 1 {
      nodes[0] := nodes[0].(isLeaf := true);
      SingleNode(nodes[..], b);
      return;
    }
    BuildStart(nodes[..], b);
    var queue := [0];
    var nextIndex := 1;
    ghost var p := 0; // how many nodes have left the queue
    while |queue| > 0
      invariant 0 <= p <= nextIndex <= n
      invariant queue == Range(p, nextIndex)
      invariant Building(nodes[..], b, p, nextIndex)
      decreases n - p
    {
      var parentIndex := queue[0];
      queue := queue[1..];
      ghost var start := nextIndex;
      StartExpanding(nodes[..], b, p, start);
      queue, nextIndex := AddChildren(nodes, b, parentIndex, queue, nextIndex);
      ExpandDone(nodes[..], b, p, start, nextIndex);
      p := p + 1;
    }
    BuildDone(nodes[..], b, p);
    NothingLinked(nodes[..], b);
  }

  // ---- Depth -------------------------------------------------------------------------------

  function Power(b: nat, k: nat): nat {
    if k == 0 then 1 else b * Power(b, k - 1)
  }

  /** ceil(log_b n), the value the logarithm formula stands for: the least k with b^k >= n. */
  function CalculateTreeDepth(n: int, b: int): (k: nat)
    requires n >= 1 && b >= 2
    ensures Power(b, k) >= n
    ensures k > 0 ==> Power(b, k - 1) < n
  {
    PowerGrows(b, n);
    LeastPower(n, b, 0)
  }

  function LeastPower(n: int, b: int, k: nat): (least: nat)
    requires n >= 1 && b >= 2 && k <= n && Power(b, n) >= n
    requires k > 0 ==> Power(b, k - 1) < n
    ensures Power(b, least) >= n
    ensures least > 0 ==> Power(b, least - 1) < n
    decreases n - k
  {
    if Power(b, k) >= n then k else LeastPower(n, b, k + 1)
  }

  lemma {:induction false} PowerGrows(b: nat, k: nat)
    requires b >= 2
    ensures Power(b, k) > k
  {
    if k > 0 {
      PowerGrows(b, k - 1);
      assert b * Power(b, k - 1) >= 2 * Power(b, k - 1);
    }
  }

  lemma {:induction false} PowerMonotone(b: nat, j: nat, k: nat)
    requires b >= 2 && j <= k
    ensures Power(b, j) <= Power(b, k)
  {
    if j < k {
      PowerMonotone(b, j, k - 1);
      assert b * Power(b, k - 1) >= Power(b, k - 1);
    }
  }

  /** How many parent links lead from node i up to the root, following the built nodes. */
  function NodeDepth(nodes: seq<TreeNode>, i: nat): nat
    requires i < |nodes|
    decreases i
  {
    if i > 0 && 0 <= nodes[i].parent < i then 1 + NodeDepth(nodes, nodes[i].parent) else 0
  }

  /** The number of nodes in the first d levels of a full tree. */
  function LevelStart(b: nat, d: nat): nat {
    if d == 0 then 0 else b * LevelStart(b, d - 1) + 1
  }

  lemma {:induction false} LevelSize(b: nat, d: nat)
    ensures LevelStart(b, d + 1) == LevelStart(b, d) + Power(b, d)
  {
    if d > 0 {
      LevelSize(b, d - 1);
      assert b * (LevelStart(b, d - 1) + Power(b, d - 1)) == b * LevelStart(b, d - 1) + b * Power(b, d - 1);
    }
  }

  lemma {:induction false} LevelStartBelowPower(b: nat, d: nat)
    requires b >= 2
    ensures LevelStart(b, d) < Power(b, d)
    ensures d > 0 ==> LevelStart(b, d) >= Power(b, d - 1)
  {
    if d > 0 {
      LevelStartBelowPower(b, d - 1);
      MulMonotone(b, LevelStart(b, d - 1) + 1, Power(b, d - 1));
      MulSucc(b, LevelStart(b, d - 1));
      LevelSize(b, d - 1);
    }
  }

  lemma BandStep(b: int, q: int, i: int, lo: int, hi: int)
    requires b >= 1 && q == ParentOf(b, i) && lo <= q < hi
    ensures b * lo + 1 <= i < b * hi + 1
  {
    ParentRun(b, q, i);
    MulMonotone(b, lo, q);
    MulMonotone(b, q + 1, hi);
    MulSucc(b, q);
  }

  lemma ParentBelow(b: int, i: int)
    requires b >= 1 && i >= 1
    ensures 0 <= ParentOf(b, i) < i
  {
    DivBelow(i - 1, b);
  }

  /** Depth d is exactly the index band [LevelStart(d), LevelStart(d+1)). */
  lemma {:induction false} DepthBand(nodes: seq<TreeNode>, b: nat, i: nat)
    requires b >= 1 && IsClosedForm(nodes, b) && i < |nodes|
    ensures LevelStart(b, NodeDepth(nodes, i)) <= i < LevelStart(b, NodeDepth(nodes, i) + 1)
    decreases i
  {
    if i > 0 {
      var q := ParentOf(b, i);
      ParentBelow(b, i);
      assert ClosedAt(nodes, b, i);
      DepthBand(nodes, b, q);
      BandStep(b, q, i, LevelStart(b, NodeDepth(nodes, q)), LevelStart(b, NodeDepth(nodes, q) + 1));
    }
  }

  lemma {:induction false} LevelStartMonotone(b: nat, c: nat, d: nat)
    requires b >= 1 && c <= d
    ensures LevelStart(b, c) <= LevelStart(b, d)
    decreases d
  {
    if c < d {
      LevelStartMonotone(b, c, d - 1);
      assert b * LevelStart(b, d - 1) >= LevelStart(b, d - 1);
    }
  }

  lemma LevelsInOrder(b: nat, c: nat, d: nat)
    requires b >= 1
    ensures c <= d ==> LevelStart(b, c) <= LevelStart(b, d)
  {
    if c <= d {
      LevelStartMonotone(b, c, d);
    }
  }

  /** Breadth first: a later node is never less deep, so the last node is the deepest. */
  lemma DepthMonotone(nodes: seq<TreeNode>, b: nat, i: nat, j: nat)
    requires b >= 1 && IsClosedForm(nodes, b) && i <= j < |nodes|
    ensures NodeDepth(nodes, i) <= NodeDepth(nodes, j)
  {
    DepthBand(nodes, b, i);
    DepthBand(nodes, b, j);
    LevelsInOrder(b, NodeDepth(nodes, j) + 1, NodeDepth(nodes, i));
  }

  /** The greatest depth d and the computed depth k satisfy d <= k <= d + 1. */
  lemma DepthBound(nodes: seq<TreeNode>, b: nat)
    requires b >= 2 && |nodes| >= 1 && IsClosedForm(nodes, b)
    ensures NodeDepth(nodes, |nodes| - 1) <= CalculateTreeDepth(|nodes|, b) <= NodeDepth(nodes, |nodes| - 1) + 1
    ensures forall i: nat :: i < |nodes| ==> NodeDepth(nodes, i) <= NodeDepth(nodes, |nodes| - 1)
  {
    var n := |nodes|;
    var d := NodeDepth(nodes, n - 1);
    var k := CalculateTreeDepth(n, b);
    DepthBand(nodes, b, n - 1);
    LevelStartBelowPower(b, d);
    LevelStartBelowPower(b, d + 1);
    if k < d {
      PowerMonotone(b, k, d - 1);
    }
    if k > d + 1 {
      PowerMonotone(b, d + 1, k - 1);
    }
    forall i: nat | i < n ensures NodeDepth(nodes, i) <= d {
      DepthMonotone(nodes, b, i, n - 1);
    }
  }

  /** The computed depth is the greatest depth exactly when the last level's width covers all nodes. */
  lemma DepthExact(nodes: seq<TreeNode>, b: nat)
    requires b >= 2 && |nodes| >= 1 && IsClosedForm(nodes, b)
    ensures var d := NodeDepth(nodes, |nodes| - 1);
            CalculateTreeDepth(|nodes|, b) == d <==> |nodes| <= Power(b, d)
  {
    DepthBound(nodes, b);
  }

  /** found empirically: the depth PostgreSQL still copes with */
  const MAX_DEPTH: int := 179

  /** The benchmark refuses a tree whose computed depth is too great; every accepted tree really is shallow. */
  method CheckDepth(tree: Tree) returns (accepted: bool)
    requires tree.qtyStreams >= 1 && tree.nodes.Length == tree.qtyStreams
    requires tree.branchingFactor >= 2 ==> tree.maxDepth == CalculateTreeDepth(tree.qtyStreams, tree.branchingFactor)
    requires IsClosedForm(tree.nodes[..], tree.branchingFactor)
    ensures accepted <==> tree.maxDepth <= 179
    ensures accepted && tree.branchingFactor >= 2 ==> forall i: nat :: i < tree.nodes.Length ==> NodeDepth(tree.nodes[..], i) <= 179
    ensures !accepted && tree.branchingFactor >= 2 ==>
              exists i: nat :: i < tree.nodes.Length && NodeDepth(tree.nodes[..], i) >= 179
  {
    accepted := !(tree.maxDepth > MAX_DEPTH);
    if tree.branchingFactor >= 2 {
      DepthBound(tree.nodes[..], tree.branchingFactor);
      assert tree.nodes.Length - 1 < tree.nodes.Length;
    }
  }

  // ---- Leaves and children -----------------------------------------------------------------

  function AllChildren(nodes: seq<TreeNode>): seq<int> {
    FlatMap((node: TreeNode) => node.children, nodes)
  }

  /** The children lists, read in node order, are 1, 2, ..., n-1: every non-root node once, in order. */
  lemma {:induction false} ChildrenPartition(nodes: seq<TreeNode>, b: nat)
    requires b >= 1 && |nodes| >= 1 && IsClosedForm(nodes, b)
    ensures AllChildren(nodes) == Range(1, |nodes|)
  {
    ChildrenPrefix(nodes, b, |nodes|);
    QueuePastEnd(|nodes|, b);
    assert nodes[..|nodes|] == nodes;
  }

  lemma QueuePastEnd(n: int, b: int)
    requires b >= 1 && n >= 1
    ensures b * n + 1 >= n
  {
    assert b * n >= n by { assert (b - 1) * n >= 0; }
  }

  lemma {:induction false} ChildrenPrefix(nodes: seq<TreeNode>, b: nat, m: nat)
    requires b >= 1 && |nodes| >= 1 && IsClosedForm(nodes, b) && m <= |nodes|
    ensures AllChildren(nodes[..m]) == Range(1, Min(|nodes|, b * m + 1))
  {
    if m > 0 {
      ChildrenPrefix(nodes, b, m - 1);
      assert nodes[m - 1].children == ChildrenOf(|nodes|, b, m - 1) by { assert ClosedAt(nodes, b, m - 1); }
      hide ClosedNode, IsClosedForm;
      AllChildrenSnoc(nodes, m);
      MulSucc(b, m - 1);
      QueuePastNode(b, m - 1);
    } else {
      assert nodes[..0] == [];
    }
  }

  lemma AllChildrenSnoc(nodes: seq<TreeNode>, m: nat)
    requires 0 < m <= |nodes|
    ensures AllChildren(nodes[..m]) == AllChildren(nodes[..m - 1]) + nodes[m - 1].children
  {
    var f := (node: TreeNode) => node.children;
    assert nodes[..m] == nodes[..m - 1] + [nodes[m - 1]];
    FlatMapConcat(f, nodes[..m - 1], [nodes[m - 1]]);
    FlatMapSingle(f, nodes[m - 1]);
  }

  /** Every non-root stream has exactly one parent stream, and that parent is composed, not primitive. */
  lemma OneComposedParent(nodes: seq<TreeNode>, b: nat, j: nat)
    requires b >= 1 && IsClosedForm(nodes, b) && 1 <= j < |nodes|
    ensures var p := nodes[j].parent;
            0 <= p < j && !nodes[p].isLeaf && j in nodes[p].children
    ensures forall i :: 0 <= i < |nodes| && j in nodes[i].children ==> i == nodes[j].parent
  {
    var p := ParentOf(b, j);
    ParentRun(b, p, j);
    ParentBelow(b, j);
    assert ClosedAt(nodes, b, j) && ClosedAt(nodes, b, p);
    InChildren(|nodes|, b, p, j);
    forall i | 0 <= i < |nodes| && j in nodes[i].children ensures i == p {
      assert ClosedAt(nodes, b, i);
      InChildren(|nodes|, b, i, j);
    }
  }

  lemma InChildren(n: int, b: int, i: int, j: int)
    requires b >= 1 && 0 <= j < n
    ensures j in ChildrenOf(n, b, i) <==> ParentOf(b, j) == i
  {
    ParentRun(b, i, j);
    var run := ChildrenOf(n, b, i);
    if ParentOf(b, j) == i {
      assert run[j - (b * i + 1)] == j;
    }
  }

  /** A node is a leaf exactly when it has no children. */
  lemma LeafIffChildless(nodes: seq<TreeNode>, b: nat, i: nat)
    requires b >= 1 && IsClosedForm(nodes, b) && i < |nodes|
    ensures nodes[i].isLeaf <==> nodes[i].children == []
    ensures nodes[i].isLeaf <==> b * i + 1 >= |nodes|
  {
    assert ClosedAt(nodes, b, i);
  }

  function LeafCount(nodes: seq<TreeNode>): nat {
    Count((node: TreeNode) => node.isLeaf, nodes)
  }

  /** Node i has children exactly when i <= (n-2)/b. */
  lemma ComposedBand(n: int, b: int, i: int)
    requires b >= 1
    ensures b * i + 1 < n <==> i <= (n - 2) / b
  {
    var q := (n - 2) / b;
    assert b * q <= n - 2 < b * q + b;
    if i <= q {
      MulMonotone(b, i, q);
    } else {
      MulMonotone(b, q + 1, i);
      MulSucc(b, q);
    }
  }

  function ComposedCount(n: int, b: int): int
    requires b >= 1
  {
    (n - 2) / b + 1
  }

  lemma CeilingForm(n: int, b: int)
    requires b >= 1 && n >= 2
    ensures ComposedCount(n, b) == (n - 1 + b - 1) / b
    ensures 1 <= ComposedCount(n, b) < n
  {
    DivBelow(n - 2, b);
    DivUp(n - 2, b);
  }

  lemma DivUp(m: int, b: int)
    requires b >= 1
    ensures (m + b) / b == m / b + 1
  {
    MulSucc(b, m / b);
    ParentRun(b, m / b + 1, m + b + 1);
  }

  /** ceil((n-1)/b) nodes are composed; all others are primitive. */
  lemma {:induction false} LeafTotal(nodes: seq<TreeNode>, b: nat)
    requires b >= 1 && |nodes| >= 2 && IsClosedForm(nodes, b)
    ensures LeafCount(nodes) == |nodes| - (|nodes| - 1 + b - 1) / b
  {
    LeafPrefix(nodes, b, |nodes|);
    assert nodes[..|nodes|] == nodes;
    CeilingForm(|nodes|, b);
  }

  lemma {:induction false} LeafPrefix(nodes: seq<TreeNode>, b: nat, m: nat)
    requires b >= 1 && |nodes| >= 2 && IsClosedForm(nodes, b) && m <= |nodes|
    ensures var c := ComposedCount(|nodes|, b);
            LeafCount(nodes[..m]) == if m <= c then 0 else m - c
  {
    if m > 0 {
      LeafPrefix(nodes, b, m - 1);
      assert nodes[..m] == nodes[..m - 1] + [nodes[m - 1]];
      CountConcat((node: TreeNode) => node.isLeaf, nodes[..m - 1], [nodes[m - 1]]);
      LeafIffChildless(nodes, b, m - 1);
      ComposedBand(|nodes|, b, m - 1);
      CeilingForm(|nodes|, b);
    } else {
      assert nodes[..0] == [];
      CeilingForm(|nodes|, b);
    }
  }

  // ---- ToDisplay ---------------------------------------------------------------------------

  /** Following parent links from i leads to r. */
  predicate Descends(nodes: seq<TreeNode>, r: int, i: int)
    requires 0 <= i < |nodes|
    decreases i
  {
    i == r || (i > r && 0 <= nodes[i].parent < i && Descends(nodes, r, nodes[i].parent))
  }

  /** The descendants of r among lo .. hi-1, in increasing order. */
  function SubtreeBetween(nodes: seq<TreeNode>, r: int, lo: int, hi: int): seq<int>
    requires 0 <= lo && hi <= |nodes|
    decreases hi - lo
  {
    if hi <= lo then []
    else SubtreeBetween(nodes, r, lo, hi - 1) + (if Descends(nodes, r, hi - 1) then [hi - 1] else [])
  }

  lemma {:induction false} BetweenSplit(nodes: seq<TreeNode>, r: int, lo: int, mid: int, hi: int)
    requires 0 <= lo <= mid <= hi <= |nodes|
    ensures SubtreeBetween(nodes, r, lo, hi) == SubtreeBetween(nodes, r, lo, mid) + SubtreeBetween(nodes, r, mid, hi)
    decreases hi - mid
  {
    if mid < hi {
      BetweenSplit(nodes, r, lo, mid, hi - 1);
    }
  }

  lemma {:induction false} BetweenNone(nodes: seq<TreeNode>, r: int, lo: int, hi: int)
    requires 0 <= lo && hi <= |nodes|
    requires forall i :: lo <= i < hi ==> !Descends(nodes, r, i)
    ensures SubtreeBetween(nodes, r, lo, hi) == []
    decreases hi - lo
  {
    if lo < hi {
      BetweenNone(nodes, r, lo, hi - 1);
    }
  }

  lemma {:induction false} BetweenAll(nodes: seq<TreeNode>, r: int, lo: int, hi: int)
    requires 0 <= lo && hi <= |nodes|
    requires forall i :: lo <= i < hi ==> Descends(nodes, r, i)
    ensures SubtreeBetween(nodes, r, lo, hi) == Range(lo, hi)
    decreases hi - lo
  {
    if lo < hi {
      BetweenAll(nodes, r, lo, hi - 1);
      RangeSnoc(lo, hi - 1);
    }
  }

  /** Exactly the descendants are listed, each once, in increasing order. */
  lemma {:induction false} BetweenComplete(nodes: seq<TreeNode>, r: int, lo: int, hi: int)
    requires 0 <= lo && hi <= |nodes|
    ensures forall i :: i in SubtreeBetween(nodes, r, lo, hi) <==> lo <= i < hi && Descends(nodes, r, i)
    ensures forall j, k :: 0 <= j < k < |SubtreeBetween(nodes, r, lo, hi)| ==>
              SubtreeBetween(nodes, r, lo, hi)[j] < SubtreeBetween(nodes, r, lo, hi)[k]
    decreases hi - lo
  {
    if lo < hi {
      BetweenComplete(nodes, r, lo, hi - 1);
      var init := SubtreeBetween(nodes, r, lo, hi - 1);
      forall j | 0 <= j < |init| ensures init[j] < hi - 1 {
        assert init[j] in init;
      }
    }
  }

  /** The head of a non-empty stretch of descendants, and what follows it. */
  lemma {:induction false} BetweenHead(nodes: seq<TreeNode>, r: int, lo: int, hi: int)
    requires 0 <= lo && hi <= |nodes| && SubtreeBetween(nodes, r, lo, hi) != []
    ensures var x := SubtreeBetween(nodes, r, lo, hi)[0];
            && lo <= x < hi && Descends(nodes, r, x)
            && SubtreeBetween(nodes, r, lo, hi) == [x] + SubtreeBetween(nodes, r, x + 1, hi)
            && (forall i :: lo <= i < x ==> !Descends(nodes, r, i))
    decreases hi - lo
  {
    BetweenSplit(nodes, r, lo, lo + 1, hi);
    assert SubtreeBetween(nodes, r, lo, lo) == [];
    if !Descends(nodes, r, lo) {
      assert SubtreeBetween(nodes, r, lo, lo + 1) == [];
      BetweenHead(nodes, r, lo + 1, hi);
    }
  }

  /** The parents of the indices between b*c and b*x+b lie between c and x. */
  lemma ParentsInStretch(b: int, c: int, x: int, i: int)
    requires b >= 1 && 0 <= c <= x && b * c + 1 <= i < b * (x + 1) + 1
    ensures c <= ParentOf(b, i) <= x && ParentOf(b, i) < i
    ensures ParentOf(b, i) == x <==> b * x + 1 <= i
  {
    QueuePastNode(b, c);
    ParentBelow(b, i);
    BandStep(b, ParentOf(b, i), i, ParentOf(b, i), ParentOf(b, i) + 1);
    if ParentOf(b, i) < c {
      MulMonotone(b, ParentOf(b, i) + 1, c);
    }
    if ParentOf(b, i) > x {
      MulMonotone(b, x + 1, ParentOf(b, i));
    }
    MulSucc(b, x);
    ParentRun(b, x, i);
  }

  lemma DescendsByParent(nodes: seq<TreeNode>, b: nat, r: int, i: int)
    requires b >= 1 && IsClosedForm(nodes, b) && 0 <= r < i < |nodes|
    ensures 0 <= ParentOf(b, i) < i
    ensures nodes[i].parent == ParentOf(b, i)
    ensures Descends(nodes, r, i) <==> Descends(nodes, r, ParentOf(b, i))
  {
    ParentBelow(b, i);
    assert ClosedAt(nodes, b, i);
  }

  /** When x is the next descendant after c, the next ones after b*c are exactly x's children. */
  lemma NextStretch(nodes: seq<TreeNode>, b: nat, r: int, c: int, x: int, i: int)
    requires b >= 1 && IsClosedForm(nodes, b) && 0 <= r <= c <= x < |nodes|
    requires Descends(nodes, r, x) && forall j :: c <= j < x ==> !Descends(nodes, r, j)
    requires b * c + 1 <= i < b * (x + 1) + 1 && i < |nodes|
    ensures Descends(nodes, r, i) <==> b * x + 1 <= i
  {
    QueuePastNode(b, c);
    ParentsInStretch(b, c, x, i);
    DescendsByParent(nodes, b, r, i);
  }

  lemma ChildrenAreNext(nodes: seq<TreeNode>, b: nat, r: int, c: int, x: int, e: int, e': int)
    requires b >= 1 && IsClosedForm(nodes, b) && 0 <= r <= c <= x < |nodes|
    requires Descends(nodes, r, x) && forall i :: c <= i < x ==> !Descends(nodes, r, i)
    requires e == Min(|nodes|, b * c + 1) && e' == Min(|nodes|, b * (x + 1) + 1)
    ensures 0 <= e <= e' && x < e'
    ensures SubtreeBetween(nodes, r, e, e') == nodes[x].children
  {
    var mid := Min(|nodes|, b * x + 1);
    MulMonotone(b, c, x);
    MulSucc(b, x);
    QueuePastNode(b, x);
    QueuePastNode(b, c);
    forall i | e <= i < e' ensures Descends(nodes, r, i) <==> i >= mid {
      NextStretch(nodes, b, r, c, x, i);
    }
    StretchIsRun(nodes, r, e, mid, e');
    assert ClosedAt(nodes, b, x);
  }

  lemma StretchIsRun(nodes: seq<TreeNode>, r: int, lo: int, mid: int, hi: int)
    requires 0 <= lo <= mid <= hi <= |nodes|
    requires forall i :: lo <= i < hi ==> (Descends(nodes, r, i) <==> i >= mid)
    ensures SubtreeBetween(nodes, r, lo, hi) == Range(mid, hi)
  {
    BetweenNone(nodes, r, lo, mid);
    BetweenAll(nodes, r, mid, hi);
    BetweenSplit(nodes, r, lo, mid, hi);
  }

  /** Once a stretch c .. b*c holds no descendant, none comes later. */
  lemma {:induction false} NoneLater(nodes: seq<TreeNode>, b: nat, r: int, c: int, i: int)
    requires b >= 1 && IsClosedForm(nodes, b) && 0 <= r < c <= i < |nodes|
    requires forall j :: c <= j < b * c + 1 && j < |nodes| ==> !Descends(nodes, r, j)
    ensures !Descends(nodes, r, i)
    decreases i
  {
    if i >= b * c + 1 {
      var q := ParentOf(b, i);
      ParentBelow(b, i);
      ParentRun(b, q, i);
      if q < c {
        MulMonotone(b, q + 1, c);
        MulSucc(b, q);
      }
      NoneLater(nodes, b, r, c, q);
      assert ClosedAt(nodes, b, i);
    }
  }

  function EdgeLine(parent: int, child: int): string {
    IntString(parent) + " " + IntString(child)
  }

  /** One line per listed child, naming its parent first. */
  function EdgeLines(b: int, children: seq<int>): seq<string>
    requires b >= 1
  {
    Map((i: int) => EdgeLine(ParentOf(b, i), i), children)
  }

  lemma EdgeLinesSnoc(b: int, children: seq<int>, child: int)
    requires b >= 1
    ensures EdgeLines(b, children + [child]) == EdgeLines(b, children) + [EdgeLine(ParentOf(b, child), child)]
  {
    MapConcat((i: int) => EdgeLine(ParentOf(b, i), i), children, [child]);
  }

  /** What a reader takes from a line: two numbers, the parent and the child. */
  function ReadEdge(line: string): Option<(int, int)> {
    var parts := Split(line, ' ');
    if |parts| != 2 || ParseInt(parts[0]).Err? || ParseInt(parts[1]).Err? then None
    else Some((ParseInt(parts[0]).value, ParseInt(parts[1]).value))
  }

  lemma ReadPrintedEdge(parent: nat, child: nat)
    requires parent < TWO_63 && child < TWO_63
    ensures ReadEdge(EdgeLine(parent, child)) == Some((parent, child))
    ensures '\n' !in EdgeLine(parent, child)
  {
    hide ParseInt;
    ParseIntOfIntString(parent);
    ParseIntOfIntString(child);
    assert Join([IntString(parent), IntString(child)], " ") == EdgeLine(parent, child) by {
      assert [IntString(parent), IntString(child)][1..] == [IntString(child)];
    }
    SplitJoin([IntString(parent), IntString(child)], ' ');
  }

  /**
   * The lines of a display, read back, name every listed child once, in order, behind its parent; children are node
   * indexes and fit into 64 bits.
   */
  lemma DisplayReadsBack(b: int, children: seq<int>)
    requires b >= 1 && children != [] && forall i :: i in children ==> 1 <= i < TWO_63
    ensures var lines := Split(Join(EdgeLines(b, children), "\n"), '\n');
            |lines| == |children| && forall k :: 0 <= k < |children| ==> ReadEdge(lines[k]) == Some(((children[k] - 1) / b, children[k]))
  {
    hide EdgeLine, ReadEdge, Split, Join;
    var lines := EdgeLines(b, children);
    forall k | 0 <= k < |children|
      ensures '\n' !in lines[k] && ReadEdge(lines[k]) == Some(((children[k] - 1) / b, children[k]))
    {
      assert children[k] in children;
      DivBelow(children[k] - 1, b);
      ReadPrintedEdge((children[k] - 1) / b, children[k]);
    }
    SplitJoin(lines, '\n');
  }

  /** Descendants below c have been expanded, those from c up to e are queued, and the edges up to e are listed. */
  ghost predicate DisplayState(nodes: seq<TreeNode>, b: int, r: int, c: int, e: int, queue: seq<int>, lines: seq<string>)
    requires b >= 1
  {
    && 0 <= r <= c <= e <= |nodes| && r < e
    && queue == SubtreeBetween(nodes, r, c, e)
    && lines == EdgeLines(b, SubtreeBetween(nodes, r, r + 1, e))
  }

  lemma DisplayStep(nodes: seq<TreeNode>, b: int, r: int, c: int, x: int, e: int, e': int, rest: seq<int>, lines: seq<string>,
                    kids: seq<int>)
    requires b >= 1 && DisplayState(nodes, b, r, c, e, [x] + rest, lines)
    requires c <= x < e <= e' <= |nodes| && rest == SubtreeBetween(nodes, r, x + 1, e)
    requires SubtreeBetween(nodes, r, e, e') == kids
    ensures DisplayState(nodes, b, r, x + 1, e', rest + kids, lines + EdgeLines(b, kids))
  {
    hide EdgeLine, ParentOf, Descends, SubtreeBetween;
    BetweenSplit(nodes, r, x + 1, e, e');
    BetweenSplit(nodes, r, r + 1, e, e');
    MapConcat((i: int) => EdgeLine(ParentOf(b, i), i), SubtreeBetween(nodes, r, r + 1, e), kids);
  }

  /** The inner loop of ToDisplay: queue the unvisited children of the current node and list their edges. */
  method ListChildren(children: seq<int>, ghost b: int, current: int, visited: set<int>, queue: seq<int>, lines: seq<string>)
    returns (queue': seq<int>, lines': seq<string>)
    requires b >= 1
    requires forall k :: 0 <= k < |children| ==> ParentOf(b, children[k]) == current && children[k] !in visited
    ensures queue' == queue + children
    ensures lines' == lines + EdgeLines(b, children)
  {
    hide EdgeLine, ParentOf;
    queue', lines' := queue, lines;
    for k := 0 to |children|
      invariant queue' == queue + children[..k]
      invariant lines' == lines + EdgeLines(b, children[..k])
    {
      var child := children[k];
      if child !in visited {
        queue' := queue' + [child];
        lines' := lines' + [EdgeLine(current, child)];
      }
      EdgeLinesSnoc(b, children[..k], child);
      assert children[..k + 1] == children[..k] + [child];
    }
    assert children[..|children|] == children;
  }

  lemma NoEdgeLines(b: int)
    requires b >= 1
    ensures EdgeLines(b, []) == []
  {
  }

  /** Lists exactly the edges of the subtree below index, each once, by increasing child. */
  method ToDisplay(tree: Tree, index: int) returns (display: string)
    requires tree.branchingFactor >= 1 && IsClosedForm(tree.nodes[..], tree.branchingFactor)
    requires 0 <= index < tree.nodes.Length
    ensures display == Join(EdgeLines(tree.branchingFactor,
                                      SubtreeBetween(tree.nodes[..], index, index + 1, tree.nodes.Length)), "\n")
  {
    hide EdgeLines, ClosedNode, Descends, SubtreeBetween, IsClosedForm, ParentOf, Join;
    var nodes := tree.nodes[..];
    ghost var b := tree.branchingFactor;
    NoEdgeLines(b);
    var queue := [index];
    var visited: set<int> := {};
    var lines: seq<string> := [];
    ghost var c, e := index, Min(|nodes|, b * index + 1);
    StartOfDisplay(nodes, b, index);
    while |queue| > 0
      invariant DisplayState(nodes, b, index, c, e, queue, lines) && e == Min(|nodes|, b * c + 1)
      invariant queue == [] ==> c > index
      invariant forall j :: j in visited ==> j < c
      decreases |nodes| - c
    {
      var current := queue[0];
      queue := queue[1..];
      visited := visited + {current};
      ghost var e' := Min(|nodes|, b * (current + 1) + 1);
      BetweenHead(nodes, index, c, e);
      ChildrenAreNext(nodes, b, index, c, current, e, e');
      DisplayStep(nodes, b, index, c, current, e, e', queue, lines, nodes[current].children);
      ChildrenNameParent(nodes, b, current);
      queue, lines := ListChildren(nodes[current].children, b, current, visited, queue, lines);
      c, e := current + 1, e';
    }
    EndOfDisplay(nodes, b, index, c, e);
    display := Join(lines, "\n");
  }

  lemma ChildrenNameParent(nodes: seq<TreeNode>, b: nat, x: int)
    requires b >= 1 && IsClosedForm(nodes, b) && 0 <= x < |nodes|
    ensures forall k :: 0 <= k < |nodes[x].children| ==>
              x < nodes[x].children[k] < |nodes| && ParentOf(b, nodes[x].children[k]) == x
  {
    var children := nodes[x].children;
    assert ClosedAt(nodes, b, x);
    QueuePastNode(b, x);
    forall k | 0 <= k < |children| ensures x < children[k] < |nodes| && ParentOf(b, children[k]) == x {
      ParentRun(b, x, children[k]);
    }
  }

  lemma QueuePastNode(b: int, c: int)
    requires b >= 1 && c >= 0
    ensures c <= b * c
  {
    MulMonotone(c, 1, b);
  }

  lemma StartOfDisplay(nodes: seq<TreeNode>, b: nat, r: int)
    requires b >= 1 && IsClosedForm(nodes, b) && 0 <= r < |nodes|
    ensures r + 1 <= Min(|nodes|, b * r + 1)
    ensures SubtreeBetween(nodes, r, r, Min(|nodes|, b * r + 1)) == [r]
    ensures SubtreeBetween(nodes, r, r + 1, Min(|nodes|, b * r + 1)) == []
  {
    hide ClosedNode, Descends, IsClosedForm;
    var e := Min(|nodes|, b * r + 1);
    QueuePastNode(b, r);
    forall i | r + 1 <= i < e ensures !Descends(nodes, r, i) {
      NotYetDescending(nodes, b, r, i);
    }
    StretchFromSelf(nodes, r, e);
  }

  lemma NotYetDescending(nodes: seq<TreeNode>, b: nat, r: int, i: int)
    requires b >= 1 && IsClosedForm(nodes, b) && 0 <= r < i < |nodes| && i < b * r + 1
    ensures !Descends(nodes, r, i)
  {
    ParentLeftOf(b, r, i);
    DescendsByParent(nodes, b, r, i);
  }

  lemma StretchFromSelf(nodes: seq<TreeNode>, r: int, e: int)
    requires 0 <= r < e <= |nodes|
    requires forall i :: r + 1 <= i < e ==> !Descends(nodes, r, i)
    ensures SubtreeBetween(nodes, r, r, e) == [r]
    ensures SubtreeBetween(nodes, r, r + 1, e) == []
  {
    BetweenNone(nodes, r, r + 1, e);
    BetweenSplit(nodes, r, r, r + 1, e);
    assert SubtreeBetween(nodes, r, r, r) == [];
  }

  lemma ParentLeftOf(b: int, r: int, i: int)
    requires b >= 1 && i < b * r + 1
    ensures ParentOf(b, i) < r
  {
    ParentRun(b, ParentOf(b, i), i);
    if ParentOf(b, i) >= r {
      MulMonotone(b, r, ParentOf(b, i));
    }
  }

  lemma EndOfDisplay(nodes: seq<TreeNode>, b: nat, r: int, c: int, e: int)
    requires b >= 1 && IsClosedForm(nodes, b) && 0 <= r < c <= e <= |nodes| && e == Min(|nodes|, b * c + 1)
    requires SubtreeBetween(nodes, r, c, e) == []
    ensures SubtreeBetween(nodes, r, r + 1, e) == SubtreeBetween(nodes, r, r + 1, |nodes|)
  {
    hide Descends, IsClosedForm, SubtreeBetween, ParentOf;
    BetweenComplete(nodes, r, c, e);
    assert forall j :: c <= j < e ==> !Descends(nodes, r, j);
    forall i | e <= i < |nodes| ensures !Descends(nodes, r, i) {
      NoneLater(nodes, b, r, c, i);
    }
    BetweenNone(nodes, r, e, |nodes|);
    BetweenSplit(nodes, r, r + 1, e, |nodes|);
  }

  /** From the root every edge is listed: the children are 1, 2, ..., n-1. */
  lemma RootShowsEveryEdge(nodes: seq<TreeNode>, b: nat)
    requires b >= 1 && |nodes| >= 1 && IsClosedForm(nodes, b)
    ensures SubtreeBetween(nodes, 0, 1, |nodes|) == Range(1, |nodes|)
  {
    forall i | 1 <= i < |nodes| ensures Descends(nodes, 0, i) {
      DescendsFromRoot(nodes, b, i);
    }
    BetweenAll(nodes, 0, 1, |nodes|);
  }

  lemma {:induction false} DescendsFromRoot(nodes: seq<TreeNode>, b: nat, i: int)
    requires b >= 1 && IsClosedForm(nodes, b) && 0 <= i < |nodes|
    ensures Descends(nodes, 0, i)
    decreases i
  {
    if i > 0 {
      ParentBelow(b, i);
      assert ClosedAt(nodes, b, i);
      DescendsFromRoot(nodes, b, ParentOf(b, i));
    }
  }
}

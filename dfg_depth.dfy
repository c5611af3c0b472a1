/**
 * Identifier sharing in `GraphBuilder.build`: one node per name (or constant
 * value), whose `depth` is the deepest of its occurrences.
 */
module DfgDepth {
  import opened Wrappers
  import opened Syntax
  import opened Categories
  import opened Graph
  import opened DfgSpec
  import opened DfgFrame

  /** Depth of the node interned under `k`, or -1 when `k` is not interned. */
  function LeafDepth(st: BuildState, k: Key): int
    requires StateOk(st)
  {
    if k in st.visited then st.nodes[st.visited[k]].depth else -1
  }

  /** The deepest recursion depth at which `build` meets the leaf key `k` in `e`, or -1. */
  ghost function Deepest(v: Variant, e: Expr, d: nat, k: Key): int
    decreases e, 1
  {
    match e
    case BinOp(l, _, r) => Max(Deepest(v, l, d + 1, k), Deepest(v, r, d + 1, k))
    case UnaryOp(_, x) => Deepest(v, x, d + 1, k)
    case Compare(l, _, _) => Max(Deepest(v, l, d + 1, k), DeepestFrom(v, e, 0, d, k))
    case Name(n) => if StrKey(n) == k then d else -1
    case Constant(c) => if v == ConstantSharing && KeyOf(ConstLeaf(c)) == k then d else -1
    case Unknown => -1
  }

  /** The same over the comparators of pairs `j..` of a comparison. */
  ghost function DeepestFrom(v: Variant, e: Expr, j: nat, d: nat, k: Key): int
    requires e.Compare? && j <= PairCount(e)
    decreases e, 0, PairCount(e) - j
  {
    if j == PairCount(e) then -1
    else Max(Deepest(v, e.comparators[j], d + 1, k), DeepestFrom(v, e, j + 1, d, k))
  }

  lemma FinishLeafDepth(v: Variant, op: Operator, left: Option<nat>, right: Option<nat>, depth: nat, st: BuildState)
    requires StateOk(st)
    ensures forall k :: LeafDepth(Finish(v, op, left, right, depth, st).state, k) == LeafDepth(st, k)
  {
  }

  lemma InternLeafDepth(leaf: Leaf, depth: nat, st: BuildState)
    requires StateOk(st)
    ensures var s := Intern(leaf, depth, st);
      forall k :: LeafDepth(s.state, k) == if k == KeyOf(leaf) then Max(LeafDepth(st, k), depth) else LeafDepth(st, k)
  {
    var s := Intern(leaf, depth, st);
    forall k | k != KeyOf(leaf) && k in st.visited
      ensures LeafDepth(s.state, k) == LeafDepth(st, k)
    {
      if KeyOf(leaf) in st.visited {
        assert st.visited[k] != st.visited[KeyOf(leaf)];
      }
    }
  }

  /**
   * After a successful step, the node interned under each key is as deep as the
   * deepest of its earlier depth and of the occurrences the step visited.
   */
  lemma {:induction false} WalkDepth(v: Variant, e: Expr, d: nat, st: BuildState)
    requires StateOk(st)
    ensures var s := Walk(v, e, d, st);
      s.result.Ok? ==> forall k :: LeafDepth(s.state, k) == Max(LeafDepth(st, k), Deepest(v, e, d, k))
    decreases e, 1
  {
    match e
    case BinOp(_, _, _) => BinOpDepth(v, e, d, st);
    case UnaryOp(_, _) => UnaryOpDepth(v, e, d, st);
    case Compare(_, _, _) => CompareDepth(v, e, d, st);
    case Name(n) => InternLeafDepth(NameLeaf(n), d, st);
    case Constant(c) =>
      if v == ConstantSharing { InternLeafDepth(ConstLeaf(c), d, st); }
    case Unknown =>
  }

  lemma {:induction false} BinOpDepth(v: Variant, e: Expr, d: nat, st: BuildState)
    requires e.BinOp? && StateOk(st)
    ensures var s := Walk(v, e, d, st);
      s.result.Ok? ==> forall k :: LeafDepth(s.state, k) == Max(LeafDepth(st, k), Deepest(v, e, d, k))
    decreases e, 0
  {
    var a := Walk(v, e.left, d + 1, st);
    WalkDepth(v, e.left, d + 1, st);
    if a.result.Ok? {
      var b := Walk(v, e.right, d + 1, a.state);
      WalkDepth(v, e.right, d + 1, a.state);
      if b.result.Ok? {
        FinishLeafDepth(v, Bin(e.op), a.result.value, b.result.value, d, b.state);
      }
    }
  }

  lemma {:induction false} UnaryOpDepth(v: Variant, e: Expr, d: nat, st: BuildState)
    requires e.UnaryOp? && StateOk(st)
    ensures var s := Walk(v, e, d, st);
      s.result.Ok? ==> forall k :: LeafDepth(s.state, k) == Max(LeafDepth(st, k), Deepest(v, e, d, k))
    decreases e, 0
  {
    var a := Walk(v, e.operand, d + 1, st);
    WalkDepth(v, e.operand, d + 1, st);
    if a.result.Ok? {
      FinishLeafDepth(v, Un(e.unop), a.result.value, None, d, a.state);
    }
  }

  lemma {:induction false} CompareDepth(v: Variant, e: Expr, d: nat, st: BuildState)
    requires e.Compare? && StateOk(st)
    ensures var s := Walk(v, e, d, st);
      s.result.Ok? ==> forall k :: LeafDepth(s.state, k) == Max(LeafDepth(st, k), Deepest(v, e, d, k))
    decreases e, 0
  {
    var a := Walk(v, e.left, d + 1, st);
    WalkDepth(v, e.left, d + 1, st);
    if a.result.Ok? {
      ChainDepth(v, e, 0, a.result.value, d, a.state);
    }
  }

  lemma {:induction false} ChainDepth(v: Variant, e: Expr, j: nat, current: Option<nat>, d: nat, st: BuildState)
    requires e.Compare? && j <= PairCount(e) && StateOk(st)
    ensures var s := Chain(v, e, j, current, d, st);
      s.result.Ok? ==> forall k :: LeafDepth(s.state, k) == Max(LeafDepth(st, k), DeepestFrom(v, e, j, d, k))
    decreases e, 0, PairCount(e) - j, 2
  {
    if j < PairCount(e) {
      ChainDepthLink(v, e, j, current, d, st);
    }
  }

  lemma {:induction false} ChainDepthLink(v: Variant, e: Expr, j: nat, current: Option<nat>, d: nat, st: BuildState)
    requires e.Compare? && j < PairCount(e) && StateOk(st)
    ensures var s := Chain(v, e, j, current, d, st);
      s.result.Ok? ==> forall k :: LeafDepth(s.state, k) == Max(LeafDepth(st, k), DeepestFrom(v, e, j, d, k))
    decreases e, 0, PairCount(e) - j, 1
  {
    var f := Link(v, e, j, current, d, st);
    LinkDepth(v, e, j, current, d, st);
    if f.result.Ok? {
      ChainDepth(v, e, j + 1, f.result.value, d, f.state);
      ChainDepthStep(v, e, j, d, st, f.state, Chain(v, e, j + 1, f.result.value, d, f.state));
    }
  }

  lemma ChainDepthStep(v: Variant, e: Expr, j: nat, d: nat, st: BuildState, f: BuildState, s: Step)
    requires e.Compare? && j < PairCount(e) && StateOk(st) && StateOk(f) && StateOk(s.state)
    requires forall k :: LeafDepth(f, k) == Max(LeafDepth(st, k), Deepest(v, e.comparators[j], d + 1, k))
    requires s.result.Ok? ==> forall k :: LeafDepth(s.state, k) == Max(LeafDepth(f, k), DeepestFrom(v, e, j + 1, d, k))
    ensures s.result.Ok? ==> forall k :: LeafDepth(s.state, k) == Max(LeafDepth(st, k), DeepestFrom(v, e, j, d, k))
  {
  }

  lemma {:induction false} LinkDepth(v: Variant, e: Expr, j: nat, current: Option<nat>, d: nat, st: BuildState)
    requires e.Compare? && j < PairCount(e) && StateOk(st)
    ensures var s := Link(v, e, j, current, d, st);
      s.result.Ok? ==>
        forall k :: LeafDepth(s.state, k) == Max(LeafDepth(st, k), Deepest(v, e.comparators[j], d + 1, k))
    decreases e, 0, PairCount(e) - j, 0
  {
    var b := Walk(v, e.comparators[j], d + 1, st);
    WalkDepth(v, e.comparators[j], d + 1, st);
    if b.result.Ok? {
      FinishLeafDepth(v, Cmp(e.ops[j]), current, b.result.value, d, b.state);
    }
  }

  /**
   * A whole `build`: a key is interned exactly when the tree uses it, and the
   * shared node's depth is the maximum depth over all its occurrences.
   */
  lemma BuildLeafDepth(v: Variant, tree: Expr, prior: seq<Node>, k: Key)
    ensures var s := Walk(v, tree, 0, Initial(prior));
      s.result.Ok? ==>
        && (k in s.state.visited <==> Deepest(v, tree, 0, k) >= 0)
        && (k in s.state.visited ==> s.state.nodes[s.state.visited[k]].depth == Deepest(v, tree, 0, k))
  {
    WalkDepth(v, tree, 0, Initial(prior));
  }

  /**
   * A whole `build` from an arena of length `base`: the nodes it creates carry
   * ids 0, 1, 2, ... in creation order, every operand's id is smaller than its
   * user's, and no two created identifier nodes share a key.
   */
  lemma BuildNumbering(v: Variant, tree: Expr, prior: seq<Node>)
    ensures var s := Walk(v, tree, 0, Initial(prior)).state;
      && |prior| <= |s.nodes|
      && (forall i :: |prior| <= i < |s.nodes| ==> s.nodes[i].id == i - |prior|)
      && (forall i, x :: |prior| <= i < |s.nodes| && x in Operands(s.nodes[i]) ==>
            |prior| <= x < i && s.nodes[x].id < s.nodes[i].id)
      && (forall i, j ::
            (&& |prior| <= i < |s.nodes| && |prior| <= j < |s.nodes|
             && s.nodes[i].Identifier? && s.nodes[j].Identifier?
             && KeyOf(s.nodes[i].leaf) == KeyOf(s.nodes[j].leaf)) ==> i == j)
  {
    WalkFacts(v, tree, 0, Initial(prior), |prior|);
  }

  /** On a fresh builder, `all_nodes[i].id == i` and a node's id exceeds its operands' ids. */
  lemma FreshBuildNumbering(v: Variant, tree: Expr)
    ensures var s := Walk(v, tree, 0, Initial([])).state;
      && (forall i :: 0 <= i < |s.nodes| ==> s.nodes[i].id == i)
      && OperandsBefore(s.nodes)
  {
    WalkFacts(v, tree, 0, Initial([]), 0);
  }
}

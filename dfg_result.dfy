/**
 * What a build step returns and how the nodes it creates sit in the depth
 * order: operator results are fresh nodes at the recursion depth, operands are
 * built one level deeper, and a comparison chain folds to the left.
 */
module DfgResult {
  import opened Wrappers
  import opened Syntax
  import opened Categories
  import opened Graph
  import opened DfgSpec
  import opened DfgFrame

  /** `b` is `a` after further building: nodes appended, identifier nodes at most deepened. */
  predicate Grows(a: seq<Node>, b: seq<Node>) {
    |a| <= |b| && forall i :: 0 <= i < |a| ==> SameNode(a[i], b[i])
  }

  lemma GrowsTrans(a: seq<Node>, b: seq<Node>, c: seq<Node>)
    requires Grows(a, b) && Grows(b, c)
    ensures Grows(a, c)
  {
    forall i | 0 <= i < |a| ensures SameNode(a[i], c[i]) {
      assert SameNode(b[i], c[i]);
    }
  }

  lemma FinishGrows(v: Variant, op: Operator, left: Option<nat>, right: Option<nat>, depth: nat, st: BuildState)
    requires StateOk(st)
    ensures Grows(st.nodes, Finish(v, op, left, right, depth, st).state.nodes)
  {
  }

  lemma InternGrows(leaf: Leaf, depth: nat, st: BuildState)
    requires StateOk(st)
    ensures Grows(st.nodes, Intern(leaf, depth, st).state.nodes)
  {
  }

  /** A build step (successful or not) never removes or rewrites a node, it only deepens identifiers. */
  lemma {:induction false} WalkGrows(v: Variant, e: Expr, d: nat, st: BuildState)
    requires StateOk(st)
    ensures Grows(st.nodes, Walk(v, e, d, st).state.nodes)
    decreases e, 1
  {
    match e
    case BinOp(l, op, r) =>
      var a := Walk(v, l, d + 1, st);
      WalkGrows(v, l, d + 1, st);
      if a.result.Ok? {
        var b := Walk(v, r, d + 1, a.state);
        WalkGrows(v, r, d + 1, a.state);
        GrowsTrans(st.nodes, a.state.nodes, b.state.nodes);
        if b.result.Ok? {
          FinishGrows(v, Bin(op), a.result.value, b.result.value, d, b.state);
          GrowsTrans(st.nodes, b.state.nodes, Walk(v, e, d, st).state.nodes);
        }
      }
    case UnaryOp(op, x) =>
      var a := Walk(v, x, d + 1, st);
      WalkGrows(v, x, d + 1, st);
      if a.result.Ok? {
        FinishGrows(v, Un(op), a.result.value, None, d, a.state);
        GrowsTrans(st.nodes, a.state.nodes, Walk(v, e, d, st).state.nodes);
      }
    case Compare(l, _, _) =>
      var a := Walk(v, l, d + 1, st);
      WalkGrows(v, l, d + 1, st);
      if a.result.Ok? {
        ChainGrows(v, e, 0, a.result.value, d, a.state);
        GrowsTrans(st.nodes, a.state.nodes, Walk(v, e, d, st).state.nodes);
      }
    case Name(n) => InternGrows(NameLeaf(n), d, st);
    case Constant(c) =>
      if v == ConstantSharing { InternGrows(ConstLeaf(c), d, st); }
    case Unknown =>
  }

  lemma {:induction false} ChainGrows(v: Variant, e: Expr, j: nat, current: Option<nat>, d: nat, st: BuildState)
    requires e.Compare? && j <= PairCount(e) && StateOk(st)
    ensures Grows(st.nodes, Chain(v, e, j, current, d, st).state.nodes)
    decreases e, 0, PairCount(e) - j, 1
  {
    if j < PairCount(e) {
      var f := Link(v, e, j, current, d, st);
      LinkGrows(v, e, j, current, d, st);
      if f.result.Ok? {
        ChainGrows(v, e, j + 1, f.result.value, d, f.state);
        GrowsTrans(st.nodes, f.state.nodes, Chain(v, e, j, current, d, st).state.nodes);
      }
    }
  }

  lemma {:induction false} LinkGrows(v: Variant, e: Expr, j: nat, current: Option<nat>, d: nat, st: BuildState)
    requires e.Compare? && j < PairCount(e) && StateOk(st)
    ensures Grows(st.nodes, Link(v, e, j, current, d, st).state.nodes)
    decreases e, 0, PairCount(e) - j, 0
  {
    var b := Walk(v, e.comparators[j], d + 1, st);
    WalkGrows(v, e.comparators[j], d + 1, st);
    if b.result.Ok? {
      FinishGrows(v, Cmp(e.ops[j]), current, b.result.value, d, b.state);
      GrowsTrans(st.nodes, b.state.nodes, Link(v, e, j, current, d, st).state.nodes);
    }
  }

  /** Operand `x`, if present, is a node of the arena at depth `d` or deeper. */
  predicate DeepOperand(nodes: seq<Node>, x: Option<nat>, d: int) {
    x.Some? ==> x.value < |nodes| && nodes[x.value].depth >= d
  }

  /**
   * Node `i`'s operands were built below it: the right operand (and the left
   * one of an arithmetic, bitwise or unary node) at least one level deeper; the
   * left operand of a comparison link may be the previous link, at the same depth.
   */
  predicate NodeOrdered(nodes: seq<Node>, i: nat)
    requires i < |nodes|
  {
    var n := nodes[i];
    n.Operator? ==>
      && DeepOperand(nodes, n.left, n.depth + (if n.op.Cmp? then 0 else 1))
      && DeepOperand(nodes, n.right, n.depth + 1)
  }

  predicate DepthOrdered(nodes: seq<Node>) {
    forall i :: 0 <= i < |nodes| ==> NodeOrdered(nodes, i)
  }

  lemma DeepKept(a: seq<Node>, b: seq<Node>, x: Option<nat>, d: int)
    requires Grows(a, b) && DeepOperand(a, x, d)
    ensures DeepOperand(b, x, d)
  {
    if x.Some? { assert SameNode(a[x.value], b[x.value]); }
  }

  /** Growing keeps the order of the old nodes; only the new ones need checking. */
  lemma OrderedGrows(a: seq<Node>, b: seq<Node>)
    requires DepthOrdered(a) && Grows(a, b)
    requires forall i :: |a| <= i < |b| ==> NodeOrdered(b, i)
    ensures DepthOrdered(b)
  {
    forall i | 0 <= i < |a| ensures NodeOrdered(b, i) {
      assert SameNode(a[i], b[i]);
      if a[i].Operator? {
        assert NodeOrdered(a, i);
        DeepKept(a, b, a[i].left, a[i].depth + (if a[i].op.Cmp? then 0 else 1));
        DeepKept(a, b, a[i].right, a[i].depth + 1);
      }
    }
  }

  lemma FinishOrdered(v: Variant, op: Operator, left: Option<nat>, right: Option<nat>, d: nat, st: BuildState)
    requires StateOk(st) && DepthOrdered(st.nodes)
    requires DeepOperand(st.nodes, left, d + (if op.Cmp? then 0 else 1)) && DeepOperand(st.nodes, right, d + 1)
    ensures var s := Finish(v, op, left, right, d, st);
      s.result.Ok? ==> DepthOrdered(s.state.nodes) && DeepOperand(s.state.nodes, s.result.value, d)
  {
    var s := Finish(v, op, left, right, d, st);
    if s.result.Ok? {
      FinishGrows(v, op, left, right, d, st);
      DeepKept(st.nodes, s.state.nodes, left, d + (if op.Cmp? then 0 else 1));
      DeepKept(st.nodes, s.state.nodes, right, d + 1);
      assert NodeOrdered(s.state.nodes, |st.nodes|);
      OrderedGrows(st.nodes, s.state.nodes);
    }
  }

  lemma InternOrdered(leaf: Leaf, d: nat, st: BuildState)
    requires StateOk(st) && DepthOrdered(st.nodes)
    ensures var s := Intern(leaf, d, st);
      DepthOrdered(s.state.nodes) && DeepOperand(s.state.nodes, s.result.value, d)
  {
    var s := Intern(leaf, d, st);
    InternGrows(leaf, d, st);
    OrderedGrows(st.nodes, s.state.nodes);
  }

  /**
   * Every node of a successful step is depth-ordered, and the operand the step
   * returns is at the step's depth or deeper.
   */
  lemma {:induction false} WalkOrdered(v: Variant, e: Expr, d: nat, st: BuildState)
    requires StateOk(st) && DepthOrdered(st.nodes)
    ensures var s := Walk(v, e, d, st);
      s.result.Ok? ==> DepthOrdered(s.state.nodes) && DeepOperand(s.state.nodes, s.result.value, d)
    decreases e, 1
  {
    match e
    case BinOp(_, _, _) => BinOpOrdered(v, e, d, st);
    case UnaryOp(op, x) =>
      var a := Walk(v, x, d + 1, st);
      WalkOrdered(v, x, d + 1, st);
      if a.result.Ok? { FinishOrdered(v, Un(op), a.result.value, None, d, a.state); }
    case Compare(l, _, _) =>
      var a := Walk(v, l, d + 1, st);
      WalkOrdered(v, l, d + 1, st);
      if a.result.Ok? { ChainOrdered(v, e, 0, a.result.value, d, a.state); }
    case Name(n) => InternOrdered(NameLeaf(n), d, st);
    case Constant(c) =>
      if v == ConstantSharing { InternOrdered(ConstLeaf(c), d, st); }
    case Unknown =>
  }

  lemma {:induction false} BinOpOrdered(v: Variant, e: Expr, d: nat, st: BuildState)
    requires e.BinOp? && StateOk(st) && DepthOrdered(st.nodes)
    ensures var s := Walk(v, e, d, st);
      s.result.Ok? ==> DepthOrdered(s.state.nodes) && DeepOperand(s.state.nodes, s.result.value, d)
    decreases e, 0
  {
    var a := Walk(v, e.left, d + 1, st);
    WalkOrdered(v, e.left, d + 1, st);
    if a.result.Ok? {
      var b := Walk(v, e.right, d + 1, a.state);
      WalkOrdered(v, e.right, d + 1, a.state);
      if b.result.Ok? {
        WalkGrows(v, e.right, d + 1, a.state);
        DeepKept(a.state.nodes, b.state.nodes, a.result.value, d + 1);
        FinishOrdered(v, Bin(e.op), a.result.value, b.result.value, d, b.state);
      }
    }
  }

  lemma {:induction false} ChainOrdered(v: Variant, e: Expr, j: nat, current: Option<nat>, d: nat, st: BuildState)
    requires e.Compare? && j <= PairCount(e) && StateOk(st) && DepthOrdered(st.nodes)
    requires DeepOperand(st.nodes, current, d)
    ensures var s := Chain(v, e, j, current, d, st);
      s.result.Ok? ==> DepthOrdered(s.state.nodes) && DeepOperand(s.state.nodes, s.result.value, d)
    decreases e, 0, PairCount(e) - j, 1
  {
    if j < PairCount(e) {
      var f := Link(v, e, j, current, d, st);
      LinkOrdered(v, e, j, current, d, st);
      if f.result.Ok? { ChainOrdered(v, e, j + 1, f.result.value, d, f.state); }
    }
  }

  lemma {:induction false} LinkOrdered(v: Variant, e: Expr, j: nat, current: Option<nat>, d: nat, st: BuildState)
    requires e.Compare? && j < PairCount(e) && StateOk(st) && DepthOrdered(st.nodes)
    requires DeepOperand(st.nodes, current, d)
    ensures var s := Link(v, e, j, current, d, st);
      s.result.Ok? ==> DepthOrdered(s.state.nodes) && DeepOperand(s.state.nodes, s.result.value, d)
    decreases e, 0, PairCount(e) - j, 0
  {
    var b := Walk(v, e.comparators[j], d + 1, st);
    WalkOrdered(v, e.comparators[j], d + 1, st);
    if b.result.Ok? {
      WalkGrows(v, e.comparators[j], d + 1, st);
      DeepKept(st.nodes, b.state.nodes, current, d);
      FinishOrdered(v, Cmp(e.ops[j]), current, b.result.value, d, b.state);
    }
  }

  /**
   * A whole `build` on a fresh builder: every operator node's operands were
   * built below it, and the root node is at depth 0. (A comparison without
   * pairs, which Python never parses, returns its left operand, built at
   * depth 1.)
   */
  lemma FreshBuildDepthOrdered(v: Variant, tree: Expr)
    ensures var s := Walk(v, tree, 0, Initial([]));
      s.result.Ok? ==>
        && DepthOrdered(s.state.nodes) && DeepOperand(s.state.nodes, s.result.value, 0)
        && (s.result.value.Some? && !(tree.Compare? && PairCount(tree) == 0) ==>
              s.state.nodes[s.result.value.value].depth == 0)
  {
    var st := Initial([]);
    WalkOrdered(v, tree, 0, st);
    match tree
    case BinOp(_, _, _) => BinOpResult(v, tree, 0, st);
    case UnaryOp(_, _) => UnaryOpResult(v, tree, 0, st);
    case Compare(_, _, _) => CompareResult(v, tree, 0, st);
    case Name(_) =>
    case Constant(_) =>
    case Unknown =>
  }

  /**
   * A successful step returned a node it created itself, the last of the arena
   * and absent before the step: an operator node for `op` at depth `d`, with
   * the category the variant's table gives `op`.
   */
  predicate FreshOperator(v: Variant, st: BuildState, s: Step, op: Operator, d: nat) {
    s.result.Ok? ==>
      && |st.nodes| < |s.state.nodes|
      && s.result.value == Some(|s.state.nodes| - 1)
      && var n := s.state.nodes[|s.state.nodes| - 1];
         n.Operator? && n.op == op && OpMap(v, op) == Some(n.opType) && n.depth == d
  }

  /** The last node of a successful step's arena (the fresh operator, when the step made one). */
  function LastNode(s: Step): Node
    requires |s.state.nodes| > 0
  {
    s.state.nodes[|s.state.nodes| - 1]
  }

  /** A binary operation yields a fresh node over the two operands, built left first. */
  lemma BinOpResult(v: Variant, e: Expr, d: nat, st: BuildState)
    requires e.BinOp? && StateOk(st)
    ensures var s := Walk(v, e, d, st);
      && FreshOperator(v, st, s, Bin(e.op), d)
      && (s.result.Ok? ==>
            var a := Walk(v, e.left, d + 1, st);
            && LastNode(s).left == a.result.value
            && LastNode(s).right == Walk(v, e.right, d + 1, a.state).result.value)
  {
    var a := Walk(v, e.left, d + 1, st);
    WalkGrows(v, e.left, d + 1, st);
    if a.result.Ok? { WalkGrows(v, e.right, d + 1, a.state); }
  }

  /** A unary operation yields a fresh node whose only operand is the left one. */
  lemma UnaryOpResult(v: Variant, e: Expr, d: nat, st: BuildState)
    requires e.UnaryOp? && StateOk(st)
    ensures var s := Walk(v, e, d, st);
      && FreshOperator(v, st, s, Un(e.unop), d)
      && (s.result.Ok? ==>
            && LastNode(s).left == Walk(v, e.operand, d + 1, st).result.value
            && LastNode(s).right == None)
  {
    WalkGrows(v, e.operand, d + 1, st);
  }

  /** One link: a fresh comparison node between `current` and comparator `j`. */
  lemma LinkResult(v: Variant, e: Expr, j: nat, current: Option<nat>, d: nat, st: BuildState)
    requires e.Compare? && j < PairCount(e) && StateOk(st)
    ensures var s := Link(v, e, j, current, d, st);
      && FreshOperator(v, st, s, Cmp(e.ops[j]), d)
      && (s.result.Ok? ==>
            && LastNode(s).left == current
            && LastNode(s).right == Walk(v, e.comparators[j], d + 1, st).result.value)
  {
    WalkGrows(v, e.comparators[j], d + 1, st);
  }

  /**
   * The links from pair `j` on fold to the left: the result is a fresh node for
   * the last operator, whose left operand is `current` when only one link is
   * left and otherwise the node of the link before it, also created here.
   */
  lemma {:induction false} ChainFold(v: Variant, e: Expr, j: nat, current: Option<nat>, d: nat, st: BuildState)
    requires e.Compare? && j < PairCount(e) && StateOk(st)
    ensures var s := Chain(v, e, j, current, d, st);
      && FreshOperator(v, st, s, Cmp(e.ops[PairCount(e) - 1]), d)
      && (s.result.Ok? ==>
            if j == PairCount(e) - 1 then LastNode(s).left == current
            else
              && LastNode(s).left.Some?
              && |st.nodes| <= LastNode(s).left.value < |s.state.nodes| - 1
              && var p := s.state.nodes[LastNode(s).left.value];
                 p.Operator? && p.op == Cmp(e.ops[PairCount(e) - 2]) && p.depth == d)
    decreases PairCount(e) - j
  {
    var f := Link(v, e, j, current, d, st);
    if f.result.Ok? && j < PairCount(e) - 1 {
      ChainFold(v, e, j + 1, f.result.value, d, f.state);
      InnerLinkFold(v, e, j, current, d, st);
    } else {
      LastLinkFold(v, e, j, current, d, st);
    }
  }

  lemma LastLinkFold(v: Variant, e: Expr, j: nat, current: Option<nat>, d: nat, st: BuildState)
    requires e.Compare? && j < PairCount(e) && StateOk(st)
    requires Link(v, e, j, current, d, st).result.Ok? ==> j == PairCount(e) - 1
    ensures var s := Chain(v, e, j, current, d, st);
      && FreshOperator(v, st, s, Cmp(e.ops[PairCount(e) - 1]), d)
      && (s.result.Ok? ==> j == PairCount(e) - 1 && LastNode(s).left == current)
  {
    LinkResult(v, e, j, current, d, st);
  }

  lemma InnerLinkFold(v: Variant, e: Expr, j: nat, current: Option<nat>, d: nat, st: BuildState)
    requires e.Compare? && j < PairCount(e) - 1 && StateOk(st)
    requires var f := Link(v, e, j, current, d, st);
      && f.result.Ok?
      && var s := Chain(v, e, j + 1, f.result.value, d, f.state);
         && FreshOperator(v, f.state, s, Cmp(e.ops[PairCount(e) - 1]), d)
         && (s.result.Ok? ==>
               if j + 1 == PairCount(e) - 1 then LastNode(s).left == f.result.value
               else
                 && LastNode(s).left.Some?
                 && |f.state.nodes| <= LastNode(s).left.value < |s.state.nodes| - 1
                 && var p := s.state.nodes[LastNode(s).left.value];
                    p.Operator? && p.op == Cmp(e.ops[PairCount(e) - 2]) && p.depth == d)
    ensures var s := Chain(v, e, j, current, d, st);
      && FreshOperator(v, st, s, Cmp(e.ops[PairCount(e) - 1]), d)
      && (s.result.Ok? ==>
            && LastNode(s).left.Some?
            && |st.nodes| <= LastNode(s).left.value < |s.state.nodes| - 1
            && var p := s.state.nodes[LastNode(s).left.value];
               p.Operator? && p.op == Cmp(e.ops[PairCount(e) - 2]) && p.depth == d)
  {
    var f := Link(v, e, j, current, d, st);
    LinkResult(v, e, j, current, d, st);
    var s := Chain(v, e, j + 1, f.result.value, d, f.state);
    if s.result.Ok? && j + 1 == PairCount(e) - 1 {
      ChainGrows(v, e, j + 1, f.result.value, d, f.state);
      assert SameNode(f.state.nodes[|f.state.nodes| - 1], s.state.nodes[|f.state.nodes| - 1]);
    }
  }

  /**
   * A comparison with `k > 0` pairs yields the fresh node of its last link; with
   * one pair that node compares the left operand with the comparator, and with
   * no pair the comparison is its left operand itself.
   */
  lemma CompareResult(v: Variant, e: Expr, d: nat, st: BuildState)
    requires e.Compare? && StateOk(st)
    ensures var s := Walk(v, e, d, st);
      var a := Walk(v, e.left, d + 1, st);
      && (PairCount(e) == 0 ==> s == a)
      && (PairCount(e) > 0 ==> FreshOperator(v, st, s, Cmp(e.ops[PairCount(e) - 1]), d))
      && (PairCount(e) == 1 && s.result.Ok? ==> LastNode(s).left == a.result.value)
  {
    var a := Walk(v, e.left, d + 1, st);
    WalkGrows(v, e.left, d + 1, st);
    if a.result.Ok? && PairCount(e) > 0 {
      ChainFold(v, e, 0, a.result.value, d, a.state);
    }
  }
}

/**
 * The shape of the graph `GraphBuilder.build` creates: a fresh operator node
 * per operator occurrence, left-folded comparison chains, operands built one
 * level deeper, and the exact condition under which the build raises.
 */
module DfgShape {
  import opened Wrappers
  import opened Syntax
  import opened Categories
  import opened Graph
  import opened DfgSpec
  import opened DfgFrame
  import opened SetLemmas

  /** The number of operator occurrences `build` visits in `e`. */
  ghost function OpCount(e: Expr): nat
    decreases e, 1
  {
    match e
    case BinOp(l, _, r) => 1 + OpCount(l) + OpCount(r)
    case UnaryOp(_, x) => 1 + OpCount(x)
    case Compare(l, _, _) => OpCount(l) + OpCountFrom(e, 0)
    case Name(_) => 0
    case Constant(_) => 0
    case Unknown => 0
  }

  ghost function OpCountFrom(e: Expr, j: nat): nat
    requires e.Compare? && j <= PairCount(e)
    decreases e, 0, PairCount(e) - j
  {
    if j == PairCount(e) then 0 else 1 + OpCount(e.comparators[j]) + OpCountFrom(e, j + 1)
  }

  /** The number of operator nodes in an arena. */
  function OperatorCount(nodes: seq<Node>): nat {
    if nodes == [] then 0
    else OperatorCount(nodes[..|nodes| - 1]) + (if nodes[|nodes| - 1].Operator? then 1 else 0)
  }

  lemma {:induction false} OperatorCountUpdate(nodes: seq<Node>, j: nat, n: Node)
    requires j < |nodes| && nodes[j].Identifier? && n.Identifier?
    ensures OperatorCount(nodes[j := n]) == OperatorCount(nodes)
    decreases |nodes|
  {
    var m := nodes[j := n];
    if j < |nodes| - 1 {
      assert m[..|m| - 1] == nodes[..|nodes| - 1][j := n];
      OperatorCountUpdate(nodes[..|nodes| - 1], j, n);
    } else {
      assert m[..|m| - 1] == nodes[..|nodes| - 1];
    }
  }

  lemma OperatorCountAppend(nodes: seq<Node>, n: Node)
    ensures OperatorCount(nodes + [n]) == OperatorCount(nodes) + (if n.Operator? then 1 else 0)
  {
    assert (nodes + [n])[..|nodes|] == nodes;
  }

  /** The counts one step adds: operator nodes per occurrence, identifier nodes per new key. */
  predicate Counted(st: BuildState, s: Step, ops: nat) {
    s.result.Ok? ==>
      && OperatorCount(s.state.nodes) == OperatorCount(st.nodes) + ops
      && st.visited.Keys <= s.state.visited.Keys
      && |s.state.nodes| == |st.nodes| + ops + (|s.state.visited.Keys| - |st.visited.Keys|)
  }

  lemma FinishCounted(v: Variant, op: Operator, left: Option<nat>, right: Option<nat>, depth: nat, st: BuildState)
    requires StateOk(st)
    ensures Counted(st, Finish(v, op, left, right, depth, st), 1)
  {
    var s := Finish(v, op, left, right, depth, st);
    if s.result.Ok? {
      OperatorCountAppend(st.nodes, s.state.nodes[|st.nodes|]);
      assert s.state.nodes == st.nodes + [s.state.nodes[|st.nodes|]];
    }
  }

  lemma InternCounted(leaf: Leaf, depth: nat, st: BuildState)
    requires StateOk(st)
    ensures Counted(st, Intern(leaf, depth, st), 0)
  {
    var s := Intern(leaf, depth, st);
    var k := KeyOf(leaf);
    if k in st.visited {
      var j := st.visited[k];
      OperatorCountUpdate(st.nodes, j, s.state.nodes[j]);
      assert s.state.visited.Keys == st.visited.Keys;
    } else {
      OperatorCountAppend(st.nodes, Identifier(st.nextId, leaf, depth));
      assert s.state.visited.Keys == st.visited.Keys + {k};
    }
  }

  lemma CountedTrans(a: BuildState, b: Step, c: Step, m: nat, n: nat)
    requires Counted(a, b, m) && b.result.Ok? && Counted(b.state, c, n)
    ensures Counted(a, c, m + n)
  {
    if c.result.Ok? {
      assert |b.state.visited.Keys| >= |a.visited.Keys| by {
        assert a.visited.Keys <= b.state.visited.Keys;
        SubsetCard(a.visited.Keys, b.state.visited.Keys);
      }
      SubsetCard(b.state.visited.Keys, c.state.visited.Keys);
    }
  }

  /**
   * Every operator occurrence creates exactly one operator node, and identifier
   * nodes are created only for keys not interned before.
   */
  lemma {:induction false} WalkCounted(v: Variant, e: Expr, d: nat, st: BuildState)
    requires StateOk(st)
    ensures Counted(st, Walk(v, e, d, st), OpCount(e))
    decreases e, 1
  {
    match e
    case BinOp(l, op, r) =>
      BinOpCounted(v, e, d, st);
    case UnaryOp(op, x) =>
      WalkCounted(v, x, d + 1, st);
      UnaryOpCounted(v, e, d, st);
    case Compare(l, _, _) =>
      WalkCounted(v, l, d + 1, st);
      var a := Walk(v, l, d + 1, st);
      if a.result.Ok? { ChainCounted(v, e, 0, a.result.value, d, a.state); }
      CompareCounted(v, e, d, st);
    case Name(n) =>
      NameCounted(v, n, d, st);
    case Constant(c) =>
      ConstantCounted(v, c, d, st);
    case Unknown =>
      UnknownCounted(v, d, st);
  }

  lemma NameCounted(v: Variant, n: string, d: nat, st: BuildState)
    requires StateOk(st)
    ensures Counted(st, Walk(v, Name(n), d, st), OpCount(Name(n)))
  {
    InternCounted(NameLeaf(n), d, st);
  }

  lemma UnknownCounted(v: Variant, d: nat, st: BuildState)
    requires StateOk(st)
    ensures Counted(st, Walk(v, Unknown, d, st), OpCount(Unknown))
  {
  }

  lemma ConstantCounted(v: Variant, c: Const, d: nat, st: BuildState)
    requires StateOk(st)
    ensures Counted(st, Walk(v, Constant(c), d, st), OpCount(Constant(c)))
  {
    if v == ConstantSharing {
      InternCounted(ConstLeaf(c), d, st);
    }
  }

  lemma UnaryOpCounted(v: Variant, e: Expr, d: nat, st: BuildState)
    requires e.UnaryOp? && StateOk(st)
    requires Counted(st, Walk(v, e.operand, d + 1, st), OpCount(e.operand))
    ensures Counted(st, Walk(v, e, d, st), OpCount(e))
  {
    var a := Walk(v, e.operand, d + 1, st);
    if a.result.Ok? {
      FinishCounted(v, Un(e.unop), a.result.value, None, d, a.state);
      CountedTrans(st, a, Finish(v, Un(e.unop), a.result.value, None, d, a.state), OpCount(e.operand), 1);
    }
  }

  lemma CompareCounted(v: Variant, e: Expr, d: nat, st: BuildState)
    requires e.Compare? && StateOk(st)
    requires var a := Walk(v, e.left, d + 1, st);
      Counted(st, a, OpCount(e.left))
      && (a.result.Ok? ==> Counted(a.state, Chain(v, e, 0, a.result.value, d, a.state), OpCountFrom(e, 0)))
    ensures Counted(st, Walk(v, e, d, st), OpCount(e))
  {
    var a := Walk(v, e.left, d + 1, st);
    if a.result.Ok? {
      CountedTrans(st, a, Chain(v, e, 0, a.result.value, d, a.state), OpCount(e.left), OpCountFrom(e, 0));
    }
  }

  lemma {:induction false} BinOpCounted(v: Variant, e: Expr, d: nat, st: BuildState)
    requires e.BinOp? && StateOk(st)
    ensures Counted(st, Walk(v, e, d, st), OpCount(e))
    decreases e, 0
  {
    var a := Walk(v, e.left, d + 1, st);
    WalkCounted(v, e.left, d + 1, st);
    if a.result.Ok? {
      var b := Walk(v, e.right, d + 1, a.state);
      WalkCounted(v, e.right, d + 1, a.state);
      if b.result.Ok? {
        var f := Finish(v, Bin(e.op), a.result.value, b.result.value, d, b.state);
        FinishCounted(v, Bin(e.op), a.result.value, b.result.value, d, b.state);
        CountedTrans(st, a, b, OpCount(e.left), OpCount(e.right));
        CountedTrans(st, b, f, OpCount(e.left) + OpCount(e.right), 1);
      }
    }
  }

  lemma {:induction false} ChainCounted(v: Variant, e: Expr, j: nat, current: Option<nat>, d: nat, st: BuildState)
    requires e.Compare? && j <= PairCount(e) && StateOk(st)
    ensures Counted(st, Chain(v, e, j, current, d, st), OpCountFrom(e, j))
    decreases e, 0, PairCount(e) - j, 2
  {
    if j < PairCount(e) {
      ChainCountedStep(v, e, j, current, d, st);
    }
  }

  lemma {:induction false} ChainCountedStep(v: Variant, e: Expr, j: nat, current: Option<nat>, d: nat, st: BuildState)
    requires e.Compare? && j < PairCount(e) && StateOk(st)
    ensures Counted(st, Chain(v, e, j, current, d, st), OpCountFrom(e, j))
    decreases e, 0, PairCount(e) - j, 1
  {
    var f := Link(v, e, j, current, d, st);
    LinkCounted(v, e, j, current, d, st);
    if f.result.Ok? {
      var c := Chain(v, e, j + 1, f.result.value, d, f.state);
      ChainCounted(v, e, j + 1, f.result.value, d, f.state);
      CountedTrans(st, f, c, OpCount(e.comparators[j]) + 1, OpCountFrom(e, j + 1));
    }
  }

  lemma {:induction false} LinkCounted(v: Variant, e: Expr, j: nat, current: Option<nat>, d: nat, st: BuildState)
    requires e.Compare? && j < PairCount(e) && StateOk(st)
    ensures Counted(st, Link(v, e, j, current, d, st), OpCount(e.comparators[j]) + 1)
    decreases e, 0, PairCount(e) - j, 0
  {
    var b := Walk(v, e.comparators[j], d + 1, st);
    WalkCounted(v, e.comparators[j], d + 1, st);
    if b.result.Ok? {
      FinishCounted(v, Cmp(e.ops[j]), current, b.result.value, d, b.state);
      CountedTrans(st, b, Link(v, e, j, current, d, st), OpCount(e.comparators[j]), 1);
    }
  }

  /** The operators `build` visits in `e` all have a category. */
  ghost predicate Supported(v: Variant, e: Expr)
    decreases e, 1
  {
    match e
    case BinOp(l, op, r) => Supported(v, l) && Supported(v, r) && OpMap(v, Bin(op)).Some?
    case UnaryOp(op, x) => Supported(v, x) && OpMap(v, Un(op)).Some?
    case Compare(l, _, _) => Supported(v, l) && SupportedFrom(v, e, 0)
    case _ => true
  }

  ghost predicate SupportedFrom(v: Variant, e: Expr, j: nat)
    requires e.Compare? && j <= PairCount(e)
    decreases e, 0, PairCount(e) - j
  {
    j < PairCount(e) ==>
      Supported(v, e.comparators[j]) && OpMap(v, Cmp(e.ops[j])).Some? && SupportedFrom(v, e, j + 1)
  }

  /**
   * `build` raises exactly when the tree holds, among the nodes it visits, an
   * operator the category table lacks (the `OperatorNode` check fails).
   */
  lemma {:induction false} WalkOkIffSupported(v: Variant, e: Expr, d: nat, st: BuildState)
    requires StateOk(st)
    ensures Walk(v, e, d, st).result.Ok? <==> Supported(v, e)
    decreases e, 1
  {
    match e
    case BinOp(l, op, r) =>
      WalkOkIffSupported(v, l, d + 1, st);
      var a := Walk(v, l, d + 1, st);
      if a.result.Ok? { WalkOkIffSupported(v, r, d + 1, a.state); }
    case UnaryOp(op, x) =>
      WalkOkIffSupported(v, x, d + 1, st);
    case Compare(l, _, _) =>
      WalkOkIffSupported(v, l, d + 1, st);
      var a := Walk(v, l, d + 1, st);
      if a.result.Ok? { ChainOkIffSupported(v, e, 0, a.result.value, d, a.state); }
    case Name(_) =>
    case Constant(_) =>
    case Unknown =>
  }

  lemma {:induction false} ChainOkIffSupported(v: Variant, e: Expr, j: nat, current: Option<nat>, d: nat, st: BuildState)
    requires e.Compare? && j <= PairCount(e) && StateOk(st)
    ensures Chain(v, e, j, current, d, st).result.Ok? <==> SupportedFrom(v, e, j)
    decreases e, 0, PairCount(e) - j, 1
  {
    if j < PairCount(e) {
      var f := Link(v, e, j, current, d, st);
      LinkOkIffSupported(v, e, j, current, d, st);
      if f.result.Ok? { ChainOkIffSupported(v, e, j + 1, f.result.value, d, f.state); }
    }
  }

  lemma {:induction false} LinkOkIffSupported(v: Variant, e: Expr, j: nat, current: Option<nat>, d: nat, st: BuildState)
    requires e.Compare? && j < PairCount(e) && StateOk(st)
    ensures Link(v, e, j, current, d, st).result.Ok? <==>
              Supported(v, e.comparators[j]) && OpMap(v, Cmp(e.ops[j])).Some?
    decreases e, 0, PairCount(e) - j, 0
  {
    WalkOkIffSupported(v, e.comparators[j], d + 1, st);
  }

  /** No identifier node of the arena holds a constant. */
  predicate NamesOnlyArena(nodes: seq<Node>) {
    forall i :: 0 <= i < |nodes| && nodes[i].Identifier? ==> nodes[i].leaf.NameLeaf?
  }

  /** The `src/1.py` builder never creates a node for a constant: constants fall to the `else` branch. */
  lemma {:induction false} NamesOnlyBuildsNoConstants(e: Expr, d: nat, st: BuildState)
    requires StateOk(st) && NamesOnlyArena(st.nodes)
    ensures NamesOnlyArena(Walk(NamesOnly, e, d, st).state.nodes)
    decreases e, 1
  {
    match e
    case BinOp(l, op, r) =>
      NamesOnlyBuildsNoConstants(l, d + 1, st);
      var a := Walk(NamesOnly, l, d + 1, st);
      if a.result.Ok? { NamesOnlyBuildsNoConstants(r, d + 1, a.state); }
    case UnaryOp(op, x) =>
      NamesOnlyBuildsNoConstants(x, d + 1, st);
    case Compare(l, _, _) =>
      NamesOnlyBuildsNoConstants(l, d + 1, st);
      var a := Walk(NamesOnly, l, d + 1, st);
      if a.result.Ok? { NamesOnlyChainNoConstants(e, 0, a.result.value, d, a.state); }
    case Name(n) =>
      var s := Intern(NameLeaf(n), d, st);
      if StrKey(n) in st.visited {
        forall i | 0 <= i < |s.state.nodes| && s.state.nodes[i].Identifier?
          ensures s.state.nodes[i].leaf.NameLeaf?
        {
          if i != st.visited[StrKey(n)] { assert s.state.nodes[i] == st.nodes[i]; }
        }
      }
    case Constant(_) =>
    case Unknown =>
  }

  lemma {:induction false} NamesOnlyChainNoConstants(e: Expr, j: nat, current: Option<nat>, d: nat, st: BuildState)
    requires e.Compare? && j <= PairCount(e) && StateOk(st) && NamesOnlyArena(st.nodes)
    ensures NamesOnlyArena(Chain(NamesOnly, e, j, current, d, st).state.nodes)
    decreases e, 0, PairCount(e) - j, 1
  {
    if j < PairCount(e) {
      var f := Link(NamesOnly, e, j, current, d, st);
      NamesOnlyBuildsNoConstants(e.comparators[j], d + 1, st);
      if f.result.Ok? { NamesOnlyChainNoConstants(e, j + 1, f.result.value, d, f.state); }
    }
  }
}

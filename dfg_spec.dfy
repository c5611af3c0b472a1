/**
 * The recursion of `GraphBuilder.build` as functions over an explicit build
 * state: the arena `all_nodes`, the `node_id` counter and the
 * `visited_identifiers` dictionary that the Python closure updates.
 */
module DfgSpec {
  import opened Wrappers
  import opened Syntax
  import opened Categories
  import opened Graph

  datatype BuildState = BuildState(nodes: seq<Node>, nextId: nat, visited: map<Key, nat>)

  /** What one recursive call returns (the operand it built, if any) and the state after it. */
  datatype Step = Step(result: Result<Option<nat>, BuildError>, state: BuildState)

  /** Every interned key points at an identifier node holding that key. */
  predicate StateOk(st: BuildState) {
    forall k :: k in st.visited ==>
      st.visited[k] < |st.nodes| && st.nodes[st.visited[k]].Identifier?
      && KeyOf(st.nodes[st.visited[k]].leaf) == k
  }

  function Max(a: int, b: int): int {
    if a < b then b else a
  }

  /**
   * The `OperatorNode(...)` call: the category comes from the variant's table,
   * and an operator outside it raises (in `src/dfg_creator.py` the `symbols`
   * lookup among the arguments raises first, for the same operators).
   */
  function MakeOperator(v: Variant, op: Operator, left: Option<nat>, right: Option<nat>,
                        depth: nat, id: nat): (r: Result<Node, BuildError>)
    ensures r.Ok? <==> OpMap(v, op).Some?
    ensures r.Ok? ==>
              && r.value.Operator? && r.value.op == op && r.value.opType == OpMap(v, op).value
              && r.value.left == left && r.value.right == right && r.value.depth == depth && r.value.id == id
  {
    match OpMap(v, op)
    case None => Err(UnsupportedOperator(op))
    case Some(c) => Ok(Operator(id, c, op, if v == ConstantSharing then Symbol(op) else None, left, right, depth))
  }

  /** `node_id += 1; self.all_nodes.append(new_node)`. */
  function Append(st: BuildState, n: Node): BuildState {
    BuildState(st.nodes + [n], st.nextId + 1, st.visited)
  }

  /** Create an operator node over the built operands and return it. */
  function Finish(v: Variant, op: Operator, left: Option<nat>, right: Option<nat>,
                  depth: nat, st: BuildState): (s: Step)
    requires StateOk(st)
    ensures StateOk(s.state)
  {
    match MakeOperator(v, op, left, right, depth, st.nextId)
    case Err(err) => Step(Err(err), st)
    case Ok(n) => Step(Ok(Some(|st.nodes|)), Append(st, n))
  }

  /**
   * A name (or, in `src/dfg_creator.py`, a constant): reuse the interned node and
   * raise its depth to the maximum, or create and intern a new identifier node.
   */
  function Intern(leaf: Leaf, depth: nat, st: BuildState): (s: Step)
    requires StateOk(st)
    ensures StateOk(s.state)
  {
    var k := KeyOf(leaf);
    if k in st.visited then
      var j := st.visited[k];
      var n := st.nodes[j];
      Step(Ok(Some(j)), st.(nodes := st.nodes[j := Identifier(n.id, n.leaf, Max(depth, n.depth))]))
    else
      Step(Ok(Some(|st.nodes|)),
           BuildState(st.nodes + [Identifier(st.nextId, leaf, depth)], st.nextId + 1,
                      st.visited[k := |st.nodes|]))
  }

  /** `recursively_build_DFG(e, depth)`. */
  function Walk(v: Variant, e: Expr, depth: nat, st: BuildState): (s: Step)
    requires StateOk(st)
    ensures StateOk(s.state)
    decreases e, 1
  {
    match e
    case BinOp(l, op, r) =>
      var a := Walk(v, l, depth + 1, st);
      if a.result.Err? then a
      else
        var b := Walk(v, r, depth + 1, a.state);
        if b.result.Err? then b
        else Finish(v, Bin(op), a.result.value, b.result.value, depth, b.state)
    case UnaryOp(op, x) =>
      var a := Walk(v, x, depth + 1, st);
      if a.result.Err? then a
      else Finish(v, Un(op), a.result.value, None, depth, a.state)
    case Compare(l, _, _) =>
      var a := Walk(v, l, depth + 1, st);
      if a.result.Err? then a
      else Chain(v, e, 0, a.result.value, depth, a.state)
    case Name(n) => Intern(NameLeaf(n), depth, st)
    case Constant(c) =>
      if v == ConstantSharing then Intern(ConstLeaf(c), depth, st) else Step(Ok(None), st)
    case Unknown => Step(Ok(None), st)
  }

  /**
   * The loop over `zip(e.ops, e.comparators)` from pair `k` on: each link takes
   * the previous result as its left operand.
   */
  function Chain(v: Variant, e: Expr, k: nat, current: Option<nat>, depth: nat, st: BuildState): (s: Step)
    requires e.Compare? && k <= PairCount(e) && StateOk(st)
    ensures StateOk(s.state)
    decreases e, 0, PairCount(e) - k, 1
  {
    if k == PairCount(e) then Step(Ok(current), st)
    else
      var f := Link(v, e, k, current, depth, st);
      if f.result.Err? then f
      else Chain(v, e, k + 1, f.result.value, depth, f.state)
  }

  /** One iteration of that loop: build comparator `k`, then the node comparing `current` with it. */
  function Link(v: Variant, e: Expr, k: nat, current: Option<nat>, depth: nat, st: BuildState): (s: Step)
    requires e.Compare? && k < PairCount(e) && StateOk(st)
    ensures StateOk(s.state)
    decreases e, 0, PairCount(e) - k, 0
  {
    var b := Walk(v, e.comparators[k], depth + 1, st);
    if b.result.Err? then b
    else Finish(v, Cmp(e.ops[k]), current, b.result.value, depth, b.state)
  }

  function Initial(nodes: seq<Node>): (st: BuildState)
    ensures StateOk(st)
  {
    BuildState(nodes, 0, map[])
  }
}

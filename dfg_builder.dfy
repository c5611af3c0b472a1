/**
 * `GraphBuilder` of `src/dfg_creator.py` and `src/1.py`: `build` walks the
 * syntax tree recursively, threading the `node_id` counter and the interning
 * dictionary, and appends every node it creates to the `all_nodes` field.
 */
module DfgBuilder {
  import opened Wrappers
  import opened Syntax
  import opened Categories
  import opened Graph
  import opened DfgSpec

  class GraphBuilder {
    var allNodes: seq<Node>

    constructor ()
      ensures allNodes == []
    {
      allNodes := [];
    }

    /** `build(tree)`: returns the root operand (or `None`), or the exception raised. */
    method Build(v: Variant, tree: Expr) returns (root: Result<Option<nat>, BuildError>)
      modifies this
      ensures var s := Walk(v, tree, 0, Initial(old(allNodes)));
              root == s.result && allNodes == s.state.nodes
    {
      var nodeId, visited;
      root, nodeId, visited := BuildDfg(v, tree, 0, 0, map[]);
    }

    /** `recursively_build_DFG(node, depth)` with its two nonlocal variables passed in and out. */
    method BuildDfg(v: Variant, node: Expr, depth: nat, nodeId: nat, visited: map<Key, nat>)
      returns (r: Result<Option<nat>, BuildError>, nodeId': nat, visited': map<Key, nat>)
      requires StateOk(BuildState(allNodes, nodeId, visited))
      modifies this
      ensures Step(r, BuildState(allNodes, nodeId', visited'))
              == Walk(v, node, depth, BuildState(old(allNodes), nodeId, visited))
      decreases node
    {
      ghost var st0 := BuildState(allNodes, nodeId, visited);
      match node
      case BinOp(left, op, right) =>
        var lop, rop;
        lop, nodeId', visited' := BuildDfg(v, left, depth + 1, nodeId, visited);
        if lop.Err? { r := lop; return; }
        rop, nodeId', visited' := BuildDfg(v, right, depth + 1, nodeId', visited');
        if rop.Err? { r := rop; return; }
        r, nodeId' := NewOperator(v, Bin(op), lop.value, rop.value, depth, nodeId', visited');
      case UnaryOp(op, operand) =>
        var opn;
        opn, nodeId', visited' := BuildDfg(v, operand, depth + 1, nodeId, visited);
        if opn.Err? { r := opn; return; }
        r, nodeId' := NewOperator(v, Un(op), opn.value, None, depth, nodeId', visited');
      case Compare(left, ops, comparators) =>
        var lop;
        lop, nodeId', visited' := BuildDfg(v, left, depth + 1, nodeId, visited);
        if lop.Err? { r := lop; return; }
        var current := lop.value;
        var k := 0;
        while k < PairCount(node)
          invariant k <= PairCount(node)
          invariant StateOk(BuildState(allNodes, nodeId', visited'))
          invariant Chain(v, node, k, current, depth, BuildState(allNodes, nodeId', visited'))
                    == Walk(v, node, depth, st0)
          decreases PairCount(node) - k
        {
          var rop;
          rop, nodeId', visited' := BuildDfg(v, comparators[k], depth + 1, nodeId', visited');
          if rop.Err? { r := rop; return; }
          var made;
          made, nodeId' := NewOperator(v, Cmp(ops[k]), current, rop.value, depth, nodeId', visited');
          if made.Err? { r := made; return; }
          current := made.value;
          k := k + 1;
        }
        r := Ok(current);
      case Name(id) =>
        r, nodeId', visited' := InternLeaf(NameLeaf(id), depth, nodeId, visited);
      case Constant(value) =>
        if v == ConstantSharing {
          r, nodeId', visited' := InternLeaf(ConstLeaf(value), depth, nodeId, visited);
        } else {
          r, nodeId', visited' := Ok(None), nodeId, visited;
        }
      case Unknown =>
        r, nodeId', visited' := Ok(None), nodeId, visited;
    }

    /** Construct an `OperatorNode`, bump `node_id` and append the node to `all_nodes`. */
    method NewOperator(v: Variant, op: Operator, left: Option<nat>, right: Option<nat>, depth: nat,
                       nodeId: nat, ghost visited: map<Key, nat>)
      returns (r: Result<Option<nat>, BuildError>, nodeId': nat)
      requires StateOk(BuildState(allNodes, nodeId, visited))
      modifies this
      ensures Step(r, BuildState(allNodes, nodeId', visited))
              == Finish(v, op, left, right, depth, BuildState(old(allNodes), nodeId, visited))
    {
      var newNode := MakeOperator(v, op, left, right, depth, nodeId);
      if newNode.Err? {
        r, nodeId' := Err(newNode.error), nodeId;
        return;
      }
      nodeId' := nodeId + 1;
      allNodes := allNodes + [newNode.value];
      r := Ok(Some(|allNodes| - 1));
    }

    /** The `ast.Name` / `ast.Constant` branch: reuse and deepen, or create and intern. */
    method InternLeaf(leaf: Leaf, depth: nat, nodeId: nat, visited: map<Key, nat>)
      returns (r: Result<Option<nat>, BuildError>, nodeId': nat, visited': map<Key, nat>)
      requires StateOk(BuildState(allNodes, nodeId, visited))
      modifies this
      ensures Step(r, BuildState(allNodes, nodeId', visited'))
              == Intern(leaf, depth, BuildState(old(allNodes), nodeId, visited))
    {
      var key := KeyOf(leaf);
      if key in visited {
        var j := visited[key];
        var existing := allNodes[j];
        allNodes := allNodes[j := Identifier(existing.id, existing.leaf, Max(depth, existing.depth))];
        r, nodeId', visited' := Ok(Some(j)), nodeId, visited;
      } else {
        var newNode := Identifier(nodeId, leaf, depth);
        nodeId' := nodeId + 1;
        visited' := visited[key := |allNodes|];
        allNodes := allNodes + [newNode];
        r := Ok(Some(|allNodes| - 1));
      }
    }
  }
}

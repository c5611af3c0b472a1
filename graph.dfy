/**
 * The data-flow graph as an arena: a sequence of nodes in which an operand is
 * the index of another node (the arena index stands for Python object
 * identity). `id` is the node's own `id` field, assigned by the builder.
 */
module Graph {
  import opened Wrappers
  import opened Syntax
  import opened Categories

  /** What an `IdentifierNode` stands for: a variable name or a constant value. */
  datatype Leaf = NameLeaf(name: string) | ConstLeaf(value: Const)

  /** A key of the builder's `visited_identifiers` dictionary. */
  datatype Key = StrKey(s: string) | IntKey(i: int)

  /**
   * A name is interned under its text and a constant under its value, in one
   * dictionary: the string constant `'a'` and the name `a` share a key.
   */
  function KeyOf(leaf: Leaf): Key {
    match leaf
    case NameLeaf(n) => StrKey(n)
    case ConstLeaf(IntConst(i)) => IntKey(i)
    case ConstLeaf(StrConst(s)) => StrKey(s)
  }

  /**
   * `IdentifierNode` and `OperatorNode`. `name` is the display symbol that
   * `src/dfg_creator.py` stores on an operator node (`None` in `src/1.py`).
   */
  datatype Node =
    | Identifier(id: nat, leaf: Leaf, depth: nat)
    | Operator(id: nat, opType: Category, op: Operator, name: Option<string>,
               left: Option<nat>, right: Option<nat>, depth: nat)

  /** The operand indices of a node. */
  function Operands(n: Node): set<nat> {
    match n
    case Identifier(_, _, _) => {}
    case Operator(_, _, _, _, l, r, _) =>
      (if l.Some? then {l.value} else {}) + (if r.Some? then {r.value} else {})
  }

  /** Every operand of every node is a node of the arena. */
  predicate RefsInRange(g: seq<Node>) {
    forall i :: 0 <= i < |g| ==> forall x :: x in Operands(g[i]) ==> x < |g|
  }

  /** Every operand comes earlier in the arena than the node that uses it. */
  predicate OperandsBefore(g: seq<Node>) {
    forall i :: 0 <= i < |g| ==> forall x :: x in Operands(g[i]) ==> x < i
  }

  /** Node `c` takes node `p` as an operand. */
  predicate Uses(g: seq<Node>, c: nat, p: nat)
    requires c < |g|
  {
    p in Operands(g[c])
  }

  /**
   * The exceptions the builders raise: an operator outside the category table,
   * or the read of an attribute the syntax node does not have.
   */
  datatype BuildError = UnsupportedOperator(op: Operator) | MissingAttribute(attribute: string)
}

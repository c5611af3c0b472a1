/**
 * The part of Python's abstract syntax tree that the graph builders walk:
 * binary, unary and comparison operators, names, constants, and a catch-all
 * for every other kind of syntax node.
 */
module Syntax {

  /** The classes of `ast.operator`. */
  datatype BinOperator =
    Add | Sub | Mult | MatMult | Div | FloorDiv | Mod | Pow
    | LShift | RShift | BitAnd | BitOr | BitXor

  /** The classes of `ast.unaryop`. */
  datatype UnaryOperator = Invert | Not | UAdd | USub

  /** The classes of `ast.cmpop`. */
  datatype CmpOperator = Eq | NotEq | Lt | LtE | Gt | GtE | Is | IsNot | In | NotIn

  /** Any operator class, as used for keys of the category and op-code tables. */
  datatype Operator = Bin(bin: BinOperator) | Un(un: UnaryOperator) | Cmp(cmp: CmpOperator)

  /** Values an `ast.Constant` may hold in this model. */
  datatype Const = IntConst(i: int) | StrConst(s: string)

  /**
   * `Compare(left, ops, comparators)` is `left ops[0] comparators[0] ops[1] ...`;
   * `Unknown` stands for every syntax node the builders do not recognise.
   */
  datatype Expr =
    | BinOp(left: Expr, op: BinOperator, right: Expr)
    | UnaryOp(unop: UnaryOperator, operand: Expr)
    | Compare(left: Expr, ops: seq<CmpOperator>, comparators: seq<Expr>)
    | Name(id: string)
    | Constant(value: Const)
    | Unknown

  /** Number of (operator, comparator) pairs that `zip(ops, comparators)` yields. */
  function PairCount(e: Expr): (k: nat)
    requires e.Compare?
    ensures k <= |e.ops| && k <= |e.comparators|
    ensures k == |e.ops| || k == |e.comparators|
  {
    if |e.ops| <= |e.comparators| then |e.ops| else |e.comparators|
  }
}

/**
 * Operator categories: the `op_map` tables of the two graph builders, the
 * `OP_TYPES` lists, the check made by the `OperatorNode` constructor, the
 * display-symbol table of `src/dfg_creator.py` and `resource_allocator`.
 */
module Categories {
  import opened Wrappers
  import opened Syntax
  import opened Strings

  /** The functional-unit categories; `Name()` is the string the source uses. */
  datatype Category = ALU | MULT | SHIFT | LOGIC | UNARY | CMP | POW
  {
    function Name(): (s: string)
      ensures |s| > 0 && forall i :: 0 <= i < |s| ==> IsAsciiLetter(s[i])
    {
      match this
      case ALU => "ALU"
      case MULT => "mult"
      case SHIFT => "shift"
      case LOGIC => "logic"
      case UNARY => "unary"
      case CMP => "cmp"
      case POW => "pow"
    }
  }

  /**
   * The two builder variants: `src/dfg_creator.py` (five categories, constants
   * interned, operator nodes carry a display symbol) and `src/1.py` (seven
   * categories, names only).
   */
  datatype Variant = ConstantSharing | NamesOnly

  /** `OP_TYPES` of each variant, in the source's order. */
  function OpTypes(v: Variant): (r: seq<Category>)
    ensures v == ConstantSharing ==> |r| == 5
    ensures v == NamesOnly ==> |r| == 7
    ensures forall i, j :: 0 <= i < j < |r| ==> r[i] != r[j]
  {
    match v
    case ConstantSharing => [ALU, MULT, SHIFT, LOGIC, POW]
    case NamesOnly => [ALU, MULT, SHIFT, LOGIC, UNARY, CMP, POW]
  }

  /** `op_map.get(type(op))`: the category of an operator class, if the table has one. */
  function OpMap(v: Variant, op: Operator): (r: Option<Category>)
    ensures r.Some? ==> r.value in OpTypes(v)
  {
    match v
    case ConstantSharing =>
      (match op
       case Bin(b) => BinCategory(b)
       case Un(u) => if u == Not then None else Some(LOGIC)
       case Cmp(c) =>
         if c in {Eq, NotEq} then Some(LOGIC)
         else if c in {Lt, LtE, Gt, GtE} then Some(ALU)
         else None)
    case NamesOnly =>
      (match op
       case Bin(b) => BinCategory(b)
       case Un(_) => Some(UNARY)
       case Cmp(c) => if c in {Is, IsNot, In, NotIn} then None else Some(CMP))
  }

  /** The binary-operator rows, which both tables share. */
  function BinCategory(b: BinOperator): Option<Category> {
    match b
    case Add | Sub => Some(ALU)
    case Mult | Div | FloorDiv | Mod => Some(MULT)
    case Pow => Some(POW)
    case LShift | RShift => Some(SHIFT)
    case BitAnd | BitOr | BitXor => Some(LOGIC)
    case MatMult => None
  }

  /** `op_map.values()`, as a set of categories. */
  ghost function CategoryValues(v: Variant): set<Category> {
    set op: Operator | OpMap(v, op).Some? :: OpMap(v, op).value
  }

  /** `op_map.get(type(op), '?')`: the category's string, or the `'?'` fallback. */
  function OpTypeString(v: Variant, op: Operator): string {
    match OpMap(v, op)
    case Some(c) => c.Name()
    case None => "?"
  }

  /** `op_type in op_map.values()`, the test of the `OperatorNode` constructor. */
  ghost predicate IsCategoryValue(v: Variant, s: string) {
    exists c :: c in CategoryValues(v) && c.Name() == s
  }

  /** The constructor accepts exactly the operators the table knows; `'?'` is rejected. */
  lemma OperatorNodeCheck(v: Variant, op: Operator)
    ensures IsCategoryValue(v, OpTypeString(v, op)) <==> OpMap(v, op).Some?
  {
    if OpMap(v, op).Some? {
      assert OpMap(v, op).value in CategoryValues(v);
    } else {
      assert OpTypeString(v, op) == "?";
      forall c | c in CategoryValues(v) ensures c.Name() != "?" {
        assert IsAsciiLetter(c.Name()[0]);
      }
    }
  }

  /** Every category listed in `OP_TYPES` is a value of `op_map`, and every value is listed. */
  lemma OpTypesAreTableValues(v: Variant)
    ensures forall c :: c in OpTypes(v) <==> c in CategoryValues(v)
  {
    forall c | c in OpTypes(v) ensures c in CategoryValues(v) {
      var op := match c
        case ALU => Bin(Add)
        case MULT => Bin(Mult)
        case SHIFT => Bin(LShift)
        case LOGIC => Bin(BitAnd)
        case UNARY => Un(Invert)
        case CMP => Cmp(Eq)
        case POW => Bin(Pow);
      assert OpMap(v, op) == Some(c);
    }
  }

  /** The seven-category table of `src/1.py`, group by group. */
  lemma SevenCategoryTable(op: Operator)
    ensures OpMap(NamesOnly, op) == Some(ALU) <==> op in {Bin(Add), Bin(Sub)}
    ensures OpMap(NamesOnly, op) == Some(MULT) <==> op in {Bin(Mult), Bin(Div), Bin(FloorDiv), Bin(Mod)}
    ensures OpMap(NamesOnly, op) == Some(SHIFT) <==> op in {Bin(LShift), Bin(RShift)}
    ensures OpMap(NamesOnly, op) == Some(LOGIC) <==> op in {Bin(BitAnd), Bin(BitOr), Bin(BitXor)}
    ensures OpMap(NamesOnly, op) == Some(UNARY) <==> op.Un?
    ensures OpMap(NamesOnly, op) == Some(CMP) <==> op in {Cmp(Eq), Cmp(NotEq), Cmp(Lt), Cmp(LtE), Cmp(Gt), Cmp(GtE)}
    ensures OpMap(NamesOnly, op) == Some(POW) <==> op == Bin(Pow)
    ensures OpMap(NamesOnly, op) == None <==> op in {Bin(MatMult), Cmp(Is), Cmp(IsNot), Cmp(In), Cmp(NotIn)}
  {
    match op
    case Bin(b) =>
    case Un(u) =>
    case Cmp(c) =>
      match c
      case Eq | NotEq | Lt | LtE | Gt | GtE =>
      case Is | IsNot | In | NotIn =>
  }

  /**
   * The `symbols` table of `src/dfg_creator.py`: the display name stored on an
   * operator node. It has exactly the keys of that file's `op_map`.
   */
  function Symbol(op: Operator): (r: Option<string>)
    ensures r.Some? <==> OpMap(ConstantSharing, op).Some?
  {
    match op
    case Bin(b) =>
      (match b
       case Add => Some("+")
       case Sub => Some("\U{2014}")
       case Mult => Some("*")
       case Div => Some("/")
       case FloorDiv => Some("//")
       case Mod => Some("%")
       case Pow => Some("**")
       case LShift => Some("<<")
       case RShift => Some(">>")
       case BitAnd => Some("&")
       case BitOr => Some("|")
       case BitXor => Some("^")
       case MatMult => None)
    case Un(u) =>
      (match u
       case Invert => Some("~")
       case UAdd => Some("+")
       case USub => Some("-")
       case Not => None)
    case Cmp(c) =>
      (match c
       case Eq => Some("==")
       case NotEq => Some("!=")
       case Lt => Some("<")
       case LtE => Some("<=")
       case Gt => Some(">")
       case GtE => Some(">=")
       case _ => None)
  }

  /** `resource_allocator`: the resource category of an operator node is its `op_type`. */
  function ResourceAllocator(opType: Category): (r: Category)
    ensures r == opType
  {
    if opType == MULT then MULT else opType
  }
}

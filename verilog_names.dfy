/**
 * The names `VerilogGenerator` derives for units and registers, the op-select
 * width of a unit and the `op_codes` table.
 */
module VerilogNames {
  import opened Wrappers
  import opened Syntax
  import opened Categories
  import opened Strings

  /** `f"{op_type}{resource_num}"`: the name of one functional unit, the key of its resource group. */
  function UnitName(c: Category, n: int): string {
    c.Name() + DecimalString(n)
  }

  /** The number of letters at the start of `s`. */
  function LetterRun(s: string): nat {
    if s != [] && IsAsciiLetter(s[0]) then 1 + LetterRun(s[1..]) else 0
  }

  lemma {:induction false} LetterRunAppend(p: string, d: string)
    requires forall i :: 0 <= i < |p| ==> IsAsciiLetter(p[i])
    requires d != [] ==> !IsAsciiLetter(d[0])
    ensures LetterRun(p + d) == |p|
  {
    if p != [] {
      assert (p + d)[1..] == p[1..] + d;
      LetterRunAppend(p[1..], d);
    } else {
      assert p + d == d;
    }
  }

  lemma NameInjective(c1: Category, c2: Category)
    requires c1.Name() == c2.Name()
    ensures c1 == c2
  {
  }

  /** Unit names are unambiguous: the name determines the category and the unit index. */
  lemma UnitNameInjective(c1: Category, n1: int, c2: Category, n2: int)
    requires UnitName(c1, n1) == UnitName(c2, n2)
    ensures c1 == c2 && n1 == n2
  {
    var s := UnitName(c1, n1);
    LetterRunAppend(c1.Name(), DecimalString(n1));
    LetterRunAppend(c2.Name(), DecimalString(n2));
    assert s[..|c1.Name()|] == c1.Name();
    assert s[..|c2.Name()|] == c2.Name();
    NameInjective(c1, c2);
    assert s[|c1.Name()|..] == DecimalString(n1) == DecimalString(n2);
    DecimalInjective(n1, n2);
  }

  /** `_get_op_width`: two select bits for a unit whose lower-cased name contains `alu` or `logic`. */
  function GetOpWidth(res: string): nat {
    if Contains(Lower(res), "alu") || Contains(Lower(res), "logic") then 2 else 1
  }

  lemma LowerAppend(p: string, d: string)
    ensures Lower(p + d) == Lower(p) + Lower(d)
  {
  }

  lemma LowerNonLetters(d: string)
    requires forall i :: 0 <= i < |d| ==> !IsAsciiLetter(d[i])
    ensures Lower(d) == d
  {
  }

  /** A word whose first letter does not occur in `s` does not occur in `s`. */
  lemma {:induction false} FirstLetterAbsent(s: string, t: string)
    requires |t| > 0 && t[0] !in s
    ensures !Contains(s, t)
    decreases |s|
  {
    if |t| <= |s| {
      assert s[..|t|][0] == s[0];
      FirstLetterAbsent(s[1..], t);
    }
  }

  /** A word occurs in itself. */
  lemma ContainsSelf(t: string)
    ensures Contains(t, t)
  {
    assert t[..|t|] == t;
  }

  lemma AluWords()
    ensures Contains(Lower(ALU.Name()), "alu") && !Contains(Lower(ALU.Name()), "logic")
  {
    var s := Lower(ALU.Name());
    assert s == "alu";
    ContainsSelf("alu");
  }

  lemma LogicWords()
    ensures !Contains(Lower(LOGIC.Name()), "alu") && Contains(Lower(LOGIC.Name()), "logic")
  {
    var s := Lower(LOGIC.Name());
    assert s == "logic";
    ContainsSelf("logic");
    FirstLetterAbsent(s, "alu");
  }

  /** `unary` holds an `a` and an `l`, but not in a row. */
  lemma UnaryWords()
    ensures !Contains(Lower(UNARY.Name()), "alu") && !Contains(Lower(UNARY.Name()), "logic")
  {
    var s := Lower(UNARY.Name());
    assert s == "unary";
    FirstLetterAbsent(s, "logic");
    assert s[..3] != "alu" by { assert s[..3][0] != 'a'; }
    assert s[1..][..3] != "alu" by { assert s[1..][..3][0] != 'a'; }
    assert s[2..][..3] != "alu" by { assert s[2..][..3][1] != 'l'; }
    assert |s[3..]| < 3;
  }

  lemma OtherWords(c: Category)
    requires c in {MULT, SHIFT, CMP, POW}
    ensures !Contains(Lower(c.Name()), "alu") && !Contains(Lower(c.Name()), "logic")
  {
    var s := Lower(c.Name());
    assert s == c.Name();
    FirstLetterAbsent(s, "alu");
    if c == MULT {
      assert |s| == 4;
    } else {
      FirstLetterAbsent(s, "logic");
    }
  }

  /** Which category names contain the two words `_get_op_width` looks for. */
  lemma NameWords(c: Category)
    ensures Contains(Lower(c.Name()), "alu") <==> c == ALU
    ensures Contains(Lower(c.Name()), "logic") <==> c == LOGIC
  {
    match c
    case ALU => AluWords();
    case LOGIC => LogicWords();
    case UNARY => UnaryWords();
    case _ => OtherWords(c);
  }

  /** A unit's op-select width depends on its category alone: 2 for `ALU` and `logic`, else 1. */
  lemma UnitOpWidth(c: Category, n: int)
    ensures GetOpWidth(UnitName(c, n)) == if c == ALU || c == LOGIC then 2 else 1
  {
    var d := DecimalString(n);
    LowerAppend(c.Name(), d);
    LowerNonLetters(d);
    NameWords(c);
    ContainsLettersBeforeNonLetters(Lower(c.Name()), d, "alu");
    ContainsLettersBeforeNonLetters(Lower(c.Name()), d, "logic");
  }

  /** The `op_codes` table: the operation code a unit is driven with. `UAdd` has no entry. */
  function OpCode(op: Operator): Option<nat> {
    match op
    case Bin(b) =>
      (match b
       case Add => Some(0)
       case Sub => Some(1)
       case Mult => Some(0)
       case Div | FloorDiv | Mod => Some(1)
       case BitAnd => Some(0)
       case BitOr => Some(1)
       case BitXor => Some(2)
       case LShift => Some(0)
       case RShift => Some(1)
       case Pow => Some(0)
       case MatMult => None)
    case Un(u) =>
      (match u
       case USub => Some(2)
       case Invert => Some(3)
       case UAdd | Not => None)
    case Cmp(c) =>
      (match c
       case Lt | LtE | Gt | GtE => Some(1)
       case Eq | NotEq => Some(0)
       case Is | IsNot | In | NotIn => None)
  }

  function Pow2(n: nat): nat {
    if n == 0 then 1 else 2 * Pow2(n - 1)
  }

  /**
   * Every code fits the op-select input of the unit that runs the operator in
   * `src/dfg_creator.py`, and the table covers that file's operators except `UAdd`.
   */
  lemma OpCodesFit(op: Operator, n: int)
    ensures OpCode(op).Some? ==>
      && OpMap(ConstantSharing, op).Some?
      && OpCode(op).value < Pow2(GetOpWidth(UnitName(OpMap(ConstantSharing, op).value, n)))
    ensures OpMap(ConstantSharing, op).Some? ==> (OpCode(op).None? <==> op == Un(UAdd))
  {
    if OpMap(ConstantSharing, op).Some? {
      UnitOpWidth(OpMap(ConstantSharing, op).value, n);
    }
  }

  /** `_get_reg_name`: `reg_<op_type><id>` for a node the schedule knows, else `"unknown"`. */
  datatype RegName = RegOf(opType: Category, id: int) | UnknownReg

  /** `_get_operand_source`: an input port, a `32'd<value>` literal, or a register. */
  datatype Source = Port(name: string) | Lit(value: Const) | Reg(reg: RegName)

  /** The lines of the `datapath` module header that `generate_datapath` emits, in order. */
  datatype PortLine =
    | ModuleHead                    // module datapath(
    | ClockReset                    // input clk, rst,
    | DataInputs(names: seq<string>)  // input [31:0] a, ... (one line)
    | NoDataInputs                  // // No data inputs detected
    | ControlHead                   // // Control Signals from Controller
    | Selects(unit: string)         // input [3:0] <unit>_sel1, <unit>_sel2,
    | OpBus(unit: string, msb: nat) // input [<msb>:0] <unit>_op,
    | OpBit(unit: string)           // input <unit>_op,
    | DoneResultEnable              // input done_next, result_en,
    | Enable(reg: RegName)          // input <reg>_en,
    | OutputsHead                   // // Outputs
    | ResultOut                     // output reg [31:0] result,
    | DoneOut                       // output reg done
    | HeadEnd                       // );
}

/**
 * The comparison branch of `src/dfg_creator.py` as written: the display symbol
 * of each link is looked up as `symbols[type(node.op)]`, but `node` is the
 * `ast.Compare` node, which has no `op` attribute, so the first link raises
 * `AttributeError` before its operator node is created.
 */
module DfgFindings {
  import opened Wrappers
  import opened Syntax
  import opened Categories
  import opened Graph
  import opened DfgSpec
  import opened DfgShape

  /** `build` of `src/dfg_creator.py` exactly as written. */
  function WalkAsWritten(e: Expr, depth: nat, st: BuildState): (s: Step)
    requires StateOk(st)
    ensures StateOk(s.state)
    decreases e
  {
    match e
    case BinOp(l, op, r) =>
      var a := WalkAsWritten(l, depth + 1, st);
      if a.result.Err? then a
      else
        var b := WalkAsWritten(r, depth + 1, a.state);
        if b.result.Err? then b
        else Finish(ConstantSharing, Bin(op), a.result.value, b.result.value, depth, b.state)
    case UnaryOp(op, x) =>
      var a := WalkAsWritten(x, depth + 1, st);
      if a.result.Err? then a
      else Finish(ConstantSharing, Un(op), a.result.value, None, depth, a.state)
    case Compare(l, _, cs) =>
      var a := WalkAsWritten(l, depth + 1, st);
      if a.result.Err? || PairCount(e) == 0 then a
      else
        // the first comparator is built, then the argument list of the link raises
        var b := WalkAsWritten(cs[0], depth + 1, a.state);
        if b.result.Err? then b
        else Step(Err(MissingAttribute("op")), b.state)
    case _ => Walk(ConstantSharing, e, depth, st)
  }

  /** No comparison in `e` that `build` visits has an (operator, comparator) pair. */
  ghost predicate ChainFree(e: Expr)
    decreases e
  {
    match e
    case BinOp(l, _, r) => ChainFree(l) && ChainFree(r)
    case UnaryOp(_, x) => ChainFree(x)
    case Compare(l, _, _) => PairCount(e) == 0 && ChainFree(l)
    case _ => true
  }

  /** On trees without a comparison link, the code as written and the corrected build agree. */
  lemma {:induction false} AsWrittenAgreesWithoutChains(e: Expr, d: nat, st: BuildState)
    requires StateOk(st) && ChainFree(e)
    ensures WalkAsWritten(e, d, st) == Walk(ConstantSharing, e, d, st)
    decreases e
  {
    match e
    case BinOp(l, op, r) =>
      AsWrittenAgreesWithoutChains(l, d + 1, st);
      var a := Walk(ConstantSharing, l, d + 1, st);
      if a.result.Ok? { AsWrittenAgreesWithoutChains(r, d + 1, a.state); }
    case UnaryOp(op, x) =>
      AsWrittenAgreesWithoutChains(x, d + 1, st);
    case Compare(l, _, _) =>
      AsWrittenAgreesWithoutChains(l, d + 1, st);
      var a := Walk(ConstantSharing, l, d + 1, st);
      if a.result.Ok? { assert Chain(ConstantSharing, e, 0, a.result.value, d, a.state) == Step(Ok(a.result.value), a.state); }
    case _ =>
  }

  /** As written, every tree holding a comparison link makes `build` raise. */
  lemma {:induction false} AsWrittenRaisesOnChains(e: Expr, d: nat, st: BuildState)
    requires StateOk(st) && !ChainFree(e)
    ensures WalkAsWritten(e, d, st).result.Err?
    decreases e
  {
    match e
    case BinOp(l, op, r) =>
      if !ChainFree(l) {
        AsWrittenRaisesOnChains(l, d + 1, st);
      } else {
        var a := WalkAsWritten(l, d + 1, st);
        if a.result.Ok? { AsWrittenRaisesOnChains(r, d + 1, a.state); }
      }
    case UnaryOp(op, x) =>
      AsWrittenRaisesOnChains(x, d + 1, st);
    case Compare(l, _, _) =>
      if PairCount(e) == 0 { AsWrittenRaisesOnChains(l, d + 1, st); }
  }

  /** As written, `build` succeeds exactly on chain-free trees whose operators all have a category. */
  lemma AsWrittenOkIff(e: Expr, d: nat, st: BuildState)
    requires StateOk(st)
    ensures WalkAsWritten(e, d, st).result.Ok? <==> ChainFree(e) && Supported(ConstantSharing, e)
  {
    if ChainFree(e) {
      AsWrittenAgreesWithoutChains(e, d, st);
      WalkOkIffSupported(ConstantSharing, e, d, st);
    } else {
      AsWrittenRaisesOnChains(e, d, st);
    }
  }

  /**
   * `a < b`: as written the build raises, while the corrected build (the one
   * `src/1.py` performs, and the one the rest of this model uses) returns the
   * comparison node, numbered after `a` and `b`.
   */
  lemma LessThanCounterexample()
    ensures var e := Compare(Name("a"), [Lt], [Name("b")]);
      && WalkAsWritten(e, 0, Initial([])).result == Err(MissingAttribute("op"))
      && Walk(ConstantSharing, e, 0, Initial([])).result == Ok(Some(2))
  {
    var e := Compare(Name("a"), [Lt], [Name("b")]);
    var st := Initial([]);
    var a := Walk(ConstantSharing, Name("a"), 1, st);
    assert a.result == Ok(Some(0)) && |a.state.nodes| == 1;
    var b := Walk(ConstantSharing, Name("b"), 1, a.state);
    assert StrKey("b") !in a.state.visited by {
      assert a.state.visited == map[StrKey("a") := 0];
      assert StrKey("a") != StrKey("b") by { assert "a"[0] != "b"[0]; }
    }
    assert b.result == Ok(Some(1)) && |b.state.nodes| == 2;
    assert PairCount(e) == 1;
    assert Chain(ConstantSharing, e, 0, a.result.value, 0, a.state).result == Ok(Some(2));
  }
}

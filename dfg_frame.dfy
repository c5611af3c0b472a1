/**
 * What one build step does to the arena: it only appends nodes, only deepens
 * existing identifier nodes, and keeps the numbering and interning invariants.
 */
module DfgFrame {
  import opened Wrappers
  import opened Syntax
  import opened Categories
  import opened Graph
  import opened DfgSpec

  /** `y` is `x` after the build: operator nodes unchanged, identifier nodes at most deeper. */
  predicate SameNode(x: Node, y: Node) {
    if x.Operator? then y == x
    else y.Identifier? && y.id == x.id && y.leaf == x.leaf && y.depth >= x.depth
  }

  /** `b` extends `a`: nodes appended, dictionary entries kept, one id per appended node. */
  predicate Extends(a: BuildState, b: BuildState) {
    && |a.nodes| <= |b.nodes|
    && (forall i :: 0 <= i < |a.nodes| ==> SameNode(a.nodes[i], b.nodes[i]))
    && (forall k :: k in a.visited ==> k in b.visited && b.visited[k] == a.visited[k])
    && b.nextId + |a.nodes| == a.nextId + |b.nodes|
  }

  /**
   * The numbering and interning invariant of one `build` call that started from
   * an arena of length `base`: nodes created by it are numbered from 0 in
   * creation order, each created identifier is the one interned under its key,
   * and operands are earlier nodes of the same call.
   */
  predicate Inv(st: BuildState, base: nat) {
    && base <= |st.nodes|
    && |st.nodes| == base + st.nextId
    && (forall i :: base <= i < |st.nodes| ==> st.nodes[i].id == i - base)
    && (forall k :: k in st.visited ==> base <= st.visited[k])
    && (forall i :: base <= i < |st.nodes| && st.nodes[i].Identifier? ==>
          KeyOf(st.nodes[i].leaf) in st.visited && st.visited[KeyOf(st.nodes[i].leaf)] == i)
    && (forall i :: base <= i < |st.nodes| ==> forall x :: x in Operands(st.nodes[i]) ==> base <= x < i)
  }

  /** An operand produced by a step is a node of the arena, of this call when `base` is its start. */
  predicate ResultIn(s: Step, base: nat) {
    s.result.Ok? && s.result.value.Some? ==> base <= s.result.value.value < |s.state.nodes|
  }

  predicate StepFacts(st: BuildState, s: Step, base: nat) {
    Extends(st, s.state) && Inv(s.state, base) && ResultIn(s, base)
  }

  lemma {:induction false} FinishFacts(v: Variant, op: Operator, left: Option<nat>, right: Option<nat>,
                                       depth: nat, st: BuildState, base: nat)
    requires StateOk(st) && Inv(st, base)
    requires left.Some? ==> base <= left.value < |st.nodes|
    requires right.Some? ==> base <= right.value < |st.nodes|
    ensures StepFacts(st, Finish(v, op, left, right, depth, st), base)
  {
    var s := Finish(v, op, left, right, depth, st);
    if s.result.Ok? {
      var n := s.state.nodes[|st.nodes|];
      assert Operands(n) <= (if left.Some? then {left.value} else {}) + (if right.Some? then {right.value} else {});
    }
  }

  lemma {:induction false} InternFacts(leaf: Leaf, depth: nat, st: BuildState, base: nat)
    requires StateOk(st) && Inv(st, base)
    ensures StepFacts(st, Intern(leaf, depth, st), base)
  {
    var s := Intern(leaf, depth, st);
    var k := KeyOf(leaf);
    if k in st.visited {
      var j := st.visited[k];
      forall i | base <= i < |s.state.nodes| && s.state.nodes[i].Identifier?
        ensures KeyOf(s.state.nodes[i].leaf) in s.state.visited
        ensures s.state.visited[KeyOf(s.state.nodes[i].leaf)] == i
      {
        if i != j { assert s.state.nodes[i] == st.nodes[i]; }
      }
      forall i | base <= i < |s.state.nodes|
        ensures forall x :: x in Operands(s.state.nodes[i]) ==> base <= x < i
      {
        if i != j { assert s.state.nodes[i] == st.nodes[i]; }
      }
    }
  }

  /** Every step keeps the invariant and only extends the state. */
  lemma {:induction false} WalkFacts(v: Variant, e: Expr, depth: nat, st: BuildState, base: nat)
    requires StateOk(st) && Inv(st, base)
    ensures StepFacts(st, Walk(v, e, depth, st), base)
    decreases e, 1
  {
    match e
    case BinOp(l, op, r) =>
      var a := Walk(v, l, depth + 1, st);
      WalkFacts(v, l, depth + 1, st, base);
      if a.result.Ok? {
        var b := Walk(v, r, depth + 1, a.state);
        WalkFacts(v, r, depth + 1, a.state, base);
        if b.result.Ok? {
          FinishFacts(v, Bin(op), a.result.value, b.result.value, depth, b.state, base);
        }
        Compose3(st, a, b, Walk(v, e, depth, st), base);
      }
    case UnaryOp(op, x) =>
      var a := Walk(v, x, depth + 1, st);
      WalkFacts(v, x, depth + 1, st, base);
      if a.result.Ok? {
        FinishFacts(v, Un(op), a.result.value, None, depth, a.state, base);
        Compose(st, a, Walk(v, e, depth, st), base);
      }
    case Compare(l, _, _) =>
      var a := Walk(v, l, depth + 1, st);
      WalkFacts(v, l, depth + 1, st, base);
      if a.result.Ok? {
        ChainFacts(v, e, 0, a.result.value, depth, a.state, base);
        Compose(st, a, Walk(v, e, depth, st), base);
      }
    case Name(n) => InternFacts(NameLeaf(n), depth, st, base);
    case Constant(c) =>
      if v == ConstantSharing { InternFacts(ConstLeaf(c), depth, st, base); }
    case Unknown =>
  }

  lemma {:induction false} ChainFacts(v: Variant, e: Expr, k: nat, current: Option<nat>, depth: nat,
                                      st: BuildState, base: nat)
    requires e.Compare? && k <= PairCount(e) && StateOk(st) && Inv(st, base)
    requires current.Some? ==> base <= current.value < |st.nodes|
    ensures StepFacts(st, Chain(v, e, k, current, depth, st), base)
    decreases e, 0, PairCount(e) - k, 2
  {
    if k < PairCount(e) {
      ChainLinkFacts(v, e, k, current, depth, st, base);
    }
  }

  lemma {:induction false} ChainLinkFacts(v: Variant, e: Expr, k: nat, current: Option<nat>, depth: nat,
                                          st: BuildState, base: nat)
    requires e.Compare? && k < PairCount(e) && StateOk(st) && Inv(st, base)
    requires current.Some? ==> base <= current.value < |st.nodes|
    ensures StepFacts(st, Chain(v, e, k, current, depth, st), base)
    decreases e, 0, PairCount(e) - k, 1
  {
    var f := Link(v, e, k, current, depth, st);
    LinkFacts(v, e, k, current, depth, st, base);
    if f.result.Ok? {
      var c := Chain(v, e, k + 1, f.result.value, depth, f.state);
      ChainFacts(v, e, k + 1, f.result.value, depth, f.state, base);
      Compose(st, f, c, base);
    }
  }

  lemma {:induction false} LinkFacts(v: Variant, e: Expr, k: nat, current: Option<nat>, depth: nat,
                                     st: BuildState, base: nat)
    requires e.Compare? && k < PairCount(e) && StateOk(st) && Inv(st, base)
    requires current.Some? ==> base <= current.value < |st.nodes|
    ensures StepFacts(st, Link(v, e, k, current, depth, st), base)
    decreases e, 0, PairCount(e) - k, 0
  {
    var b := Walk(v, e.comparators[k], depth + 1, st);
    WalkFacts(v, e.comparators[k], depth + 1, st, base);
    if b.result.Ok? {
      FinishFacts(v, Cmp(e.ops[k]), current, b.result.value, depth, b.state, base);
      Compose(st, b, Link(v, e, k, current, depth, st), base);
    }
  }

  /** Facts of two consecutive steps give the facts of the whole, whose state is the second's. */
  lemma Compose(st: BuildState, a: Step, s: Step, base: nat)
    requires StepFacts(st, a, base) && StepFacts(a.state, s, base)
    ensures StepFacts(st, s, base)
  {
    ExtendsTrans(st, a.state, s.state);
  }

  lemma Compose3(st: BuildState, a: Step, b: Step, s: Step, base: nat)
    requires StepFacts(st, a, base) && StepFacts(a.state, b, base)
    requires b.result.Ok? ==> StepFacts(b.state, s, base)
    requires b.result.Err? ==> s == b
    ensures StepFacts(st, s, base)
  {
    ExtendsTrans(st, a.state, b.state);
    if b.result.Ok? { ExtendsTrans(st, b.state, s.state); }
  }

  lemma ExtendsTrans(a: BuildState, b: BuildState, c: BuildState)
    requires Extends(a, b) && Extends(b, c)
    ensures Extends(a, c)
  {
    forall i | 0 <= i < |a.nodes| ensures SameNode(a.nodes[i], c.nodes[i]) {
      assert SameNode(b.nodes[i], c.nodes[i]);
    }
  }
}

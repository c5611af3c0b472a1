/**
 * Three places where `VerilogGenerator.__init__` of `src/code_generator.py`,
 * as written, raises before it finishes:
 * - `_collect_inputs` (and `_get_operand_source`) read `operand.value`, an
 *   attribute `IdentifierNode` never sets;
 * - the grouping loop appends to `self.resources[resource_name]` of a plain,
 *   empty dictionary;
 * - `_build_mux_tables` reads the `value` of each identifier operand through
 *   `_get_operand_source`, and writes `self.mux_tables[resource_name][op_idx][src]`
 *   into a plain, empty dictionary.
 * The corrected behaviour (a leaf knows whether it is a name or a constant, and
 * both dictionaries create entries on first use) is the one `CodeGenerator`
 * models; this module models the code as written and shows each failure.
 */
module CodeGenFindings {
  import opened Wrappers
  import opened Syntax
  import opened Categories
  import opened Graph
  import opened Strings
  import opened VerilogNames
  import opened Scheduler
  import opened CodeGenerator
  import opened Grouping

  /** The Python exceptions raised along the way. */
  datatype GenError = AttributeError(attr: string) | KeyError(key: string)

  /** Operand `x` is present and is an identifier node. */
  predicate LeafAt(graph: seq<Node>, x: Option<nat>) {
    x.Some? && x.value < |graph| && graph[x.value].Identifier?
  }

  /** Some entry of `s` has an identifier node among its operands. */
  ghost predicate ReadsLeaf(graph: seq<Node>, s: seq<ScheduledNodeInfo>)
    requires EntriesOfArena(graph, s)
  {
    exists a, x :: 0 <= a < |s| && x in Operands(graph[s[a].node]) && x < |graph| && graph[x].Identifier?
  }

  /**
   * `_collect_inputs` as written: the first identifier operand raises
   * `AttributeError('value')`; without one nothing is ever added.
   */
  function CollectInputsAsWritten(graph: seq<Node>, s: seq<ScheduledNodeInfo>): Result<set<string>, GenError>
    requires EntriesOfArena(graph, s)
    decreases |s|
  {
    if s == [] then Ok({})
    else
      var r0 := CollectInputsAsWritten(graph, s[..|s| - 1]);
      var n := graph[s[|s| - 1].node];
      if r0.Err? then r0
      else if LeafAt(graph, n.left) || LeafAt(graph, n.right) then Err(AttributeError("value"))
      else r0
  }

  /**
   * As written, input collection succeeds exactly when no entry reads a leaf,
   * and then it collects no input at all.
   */
  lemma {:induction false} CollectInputsAsWrittenOkIff(graph: seq<Node>, s: seq<ScheduledNodeInfo>)
    requires EntriesOfArena(graph, s)
    ensures CollectInputsAsWritten(graph, s).Ok? <==> !ReadsLeaf(graph, s)
    ensures CollectInputsAsWritten(graph, s).Ok? ==> CollectInputsAsWritten(graph, s).value == {}
    ensures CollectInputsAsWritten(graph, s).Err? ==> CollectInputsAsWritten(graph, s).error == AttributeError("value")
    decreases |s|
  {
    if s != [] {
      var init := s[..|s| - 1];
      CollectInputsAsWrittenOkIff(graph, init);
      var n := graph[s[|s| - 1].node];
      if ReadsLeaf(graph, init) {
        var a, x :| 0 <= a < |init| && x in Operands(graph[init[a].node]) && x < |graph| && graph[x].Identifier?;
        assert s[a] == init[a];
      }
      if LeafAt(graph, n.left) {
        assert n.left.value in Operands(graph[s[|s| - 1].node]);
      }
      if LeafAt(graph, n.right) {
        assert n.right.value in Operands(graph[s[|s| - 1].node]);
      }
    }
  }

  /**
   * The grouping loop as written: `resources` starts empty and each entry is
   * appended to the list of its unit, which must already exist.
   */
  function GroupAsWritten(graph: seq<Node>, s: seq<ScheduledNodeInfo>): Result<map<string, seq<ScheduledNodeInfo>>, GenError>
    requires EntriesOfArena(graph, s)
    decreases |s|
  {
    if s == [] then Ok(map[])
    else
      var r0 := GroupAsWritten(graph, s[..|s| - 1]);
      var last := s[|s| - 1];
      var name := UnitOf(graph, last);
      if r0.Err? then r0
      else if name !in r0.value then Err(KeyError(name))
      else Ok(r0.value[name := r0.value[name] + [last]])
  }

  /** The first occurrence of each element, in order: the key order of a dictionary filled from `xs`. */
  function FirstOccurrences<T(==)>(xs: seq<T>): seq<T>
    decreases |xs|
  {
    if xs == [] then []
    else
      var o := FirstOccurrences(xs[..|xs| - 1]);
      if xs[|xs| - 1] in o then o else o + [xs[|xs| - 1]]
  }

  /** The first occurrences hold each element of `xs` exactly once, and nothing else. */
  lemma {:induction false} FirstOccurrencesKeys<T>(xs: seq<T>)
    ensures forall u :: u in FirstOccurrences(xs) <==> u in xs
    ensures forall i, j :: 0 <= i < j < |FirstOccurrences(xs)| ==> FirstOccurrences(xs)[i] != FirstOccurrences(xs)[j]
    decreases |xs|
  {
    if xs != [] {
      FirstOccurrencesKeys(xs[..|xs| - 1]);
      assert xs == xs[..|xs| - 1] + [xs[|xs| - 1]];
    }
  }

  /** The unit name of each entry, in schedule order. */
  function UnitNames(graph: seq<Node>, s: seq<ScheduledNodeInfo>): (names: seq<string>)
    requires EntriesOfArena(graph, s)
    ensures |names| == |s| && forall a :: 0 <= a < |s| ==> names[a] == UnitOf(graph, s[a])
  {
    seq(|s|, a requires 0 <= a < |s| => UnitOf(graph, s[a]))
  }

  /**
   * The keys of `self.resources` in insertion order, which `.items()` follows:
   * each unit once, where the first entry running on it comes in the schedule.
   */
  function UnitOrder(graph: seq<Node>, s: seq<ScheduledNodeInfo>): seq<string>
    requires EntriesOfArena(graph, s)
  {
    FirstOccurrences(UnitNames(graph, s))
  }

  /** The insertion order lists each unit the schedule uses exactly once, and no other. */
  lemma UnitOrderKeys(graph: seq<Node>, s: seq<ScheduledNodeInfo>)
    requires EntriesOfArena(graph, s)
    ensures forall u :: u in UnitOrder(graph, s) <==> exists a :: 0 <= a < |s| && UnitOf(graph, s[a]) == u
    ensures forall i, j :: 0 <= i < j < |UnitOrder(graph, s)| ==> UnitOrder(graph, s)[i] != UnitOrder(graph, s)[j]
  {
    var names := UnitNames(graph, s);
    FirstOccurrencesKeys(names);
    forall u ensures u in names <==> exists a :: 0 <= a < |s| && UnitOf(graph, s[a]) == u {
      if u in names {
        var a :| 0 <= a < |names| && names[a] == u;
      }
    }
  }

  /** As written, grouping raises `KeyError` on the unit of the first entry of every non-empty schedule. */
  lemma {:induction false} GroupAsWrittenFails(graph: seq<Node>, s: seq<ScheduledNodeInfo>)
    requires EntriesOfArena(graph, s)
    ensures GroupAsWritten(graph, s).Ok? <==> s == []
    ensures s != [] ==> GroupAsWritten(graph, s) == Err(KeyError(UnitOf(graph, s[0])))
    decreases |s|
  {
    if s != [] {
      var init := s[..|s| - 1];
      GroupAsWrittenFails(graph, init);
      if init != [] {
        assert init[0] == s[0];
      }
    }
  }

  /** Some entry of `group` has an identifier node as its operand at position `pos`. */
  ghost predicate LeafOperand(graph: seq<Node>, group: seq<ScheduledNodeInfo>, pos: nat)
    requires EntriesOfArena(graph, group)
  {
    exists a :: 0 <= a < |group| && LeafAt(graph, OperandAt(graph[group[a].node], pos))
  }

  /**
   * The loop over the entries of one unit and position in `_build_mux_tables`,
   * with `_get_operand_source` as written: an absent operand is skipped, an
   * identifier operand raises `AttributeError('value')` where its `value` is
   * read, and an operator operand adds its register.
   */
  function SourcesAsWritten(graph: seq<Node>, m: map<int, ScheduledNodeInfo>, group: seq<ScheduledNodeInfo>, pos: nat)
    : Result<set<Source>, GenError>
    requires RefsInRange(graph) && MapOk(graph, m) && EntriesOfArena(graph, group)
    decreases |group|
  {
    if group == [] then Ok({})
    else
      var r0 := SourcesAsWritten(graph, m, group[..|group| - 1], pos);
      var x := OperandAt(graph[group[|group| - 1].node], pos);
      if r0.Err? then r0
      else if x.None? then r0
      else if graph[x.value].Identifier? then Err(AttributeError("value"))
      else Ok(r0.value + {GetOperandSource(graph, m, x)})
  }

  /**
   * As written, gathering the sources of a position raises exactly when one of
   * its operands is an identifier node; otherwise it gathers the same sources
   * as the corrected code.
   */
  lemma {:induction false} SourcesAsWrittenOkIff(graph: seq<Node>, m: map<int, ScheduledNodeInfo>,
                                                group: seq<ScheduledNodeInfo>, pos: nat)
    requires RefsInRange(graph) && MapOk(graph, m) && EntriesOfArena(graph, group)
    ensures SourcesAsWritten(graph, m, group, pos).Ok? <==> !LeafOperand(graph, group, pos)
    ensures SourcesAsWritten(graph, m, group, pos).Ok? ==>
              SourcesAsWritten(graph, m, group, pos).value == MuxSources(graph, m, group, pos)
    ensures SourcesAsWritten(graph, m, group, pos).Err? ==>
              SourcesAsWritten(graph, m, group, pos).error == AttributeError("value")
    decreases |group|
  {
    if group != [] {
      var init := group[..|group| - 1];
      var last := |group| - 1;
      SourcesAsWrittenOkIff(graph, m, init, pos);
      if LeafOperand(graph, init, pos) {
        var a :| 0 <= a < |init| && LeafAt(graph, OperandAt(graph[init[a].node], pos));
        assert group[a] == init[a];
      }
      if !LeafOperand(graph, group, pos) {
        assert !LeafAt(graph, OperandAt(graph[group[last].node], pos));
        forall a | 0 <= a < |init| ensures !LeafAt(graph, OperandAt(graph[init[a].node], pos)) {
          assert group[a] == init[a];
        }
        MuxSourcesSnoc(graph, m, group, pos);
      }
    }
  }

  /** The sources of a group are those of all but its last entry, plus the last entry's. */
  lemma MuxSourcesSnoc(graph: seq<Node>, m: map<int, ScheduledNodeInfo>, group: seq<ScheduledNodeInfo>, pos: nat)
    requires RefsInRange(graph) && MapOk(graph, m) && EntriesOfArena(graph, group) && group != []
    ensures var x := OperandAt(graph[group[|group| - 1].node], pos);
      MuxSources(graph, m, group, pos)
      == MuxSources(graph, m, group[..|group| - 1], pos) + (if x.Some? then {GetOperandSource(graph, m, x)} else {})
  {
    var init, last := group[..|group| - 1], |group| - 1;
    forall s | s in MuxSources(graph, m, group, pos) ensures s in MuxSources(graph, m, init, pos) || s == GetOperandSource(graph, m, OperandAt(graph[group[last].node], pos)) {
      var a :| 0 <= a < |group| && OperandAt(graph[group[a].node], pos).Some?
               && GetOperandSource(graph, m, OperandAt(graph[group[a].node], pos)) == s;
      if a < last {
        assert group[a] == init[a];
      }
    }
    forall s | s in MuxSources(graph, m, init, pos) ensures s in MuxSources(graph, m, group, pos) {
      var a :| 0 <= a < |init| && OperandAt(graph[init[a].node], pos).Some?
               && GetOperandSource(graph, m, OperandAt(graph[init[a].node], pos)) == s;
      assert group[a] == init[a];
    }
  }

  /**
   * `for op_idx in [0, 1]` for one unit as written: a position with a source
   * first reaches line 44, whose write into the empty `mux_tables` raises
   * `KeyError` on the unit's name.
   */
  function UnitAsWritten(graph: seq<Node>, m: map<int, ScheduledNodeInfo>, group: seq<ScheduledNodeInfo>, name: string)
    : Result<(), GenError>
    requires RefsInRange(graph) && MapOk(graph, m) && EntriesOfArena(graph, group)
  {
    var r0 := SourcesAsWritten(graph, m, group, 0);
    if r0.Err? then Err(r0.error)
    else if r0.value != {} then Err(KeyError(name))
    else
      var r1 := SourcesAsWritten(graph, m, group, 1);
      if r1.Err? then Err(r1.error)
      else if r1.value != {} then Err(KeyError(name))
      else Ok(())
  }

  /** `_build_mux_tables` as written, over the units in dictionary order. */
  function MuxAsWritten(graph: seq<Node>, m: map<int, ScheduledNodeInfo>,
                        resources: map<string, seq<ScheduledNodeInfo>>, order: seq<string>)
    : Result<map<string, map<nat, map<Source, nat>>>, GenError>
    requires RefsInRange(graph) && MapOk(graph, m) && GroupsOk(graph, resources)
    requires forall k :: 0 <= k < |order| ==> order[k] in resources
    decreases |order|
  {
    if order == [] then Ok(map[])
    else
      var r := UnitAsWritten(graph, m, resources[order[0]], order[0]);
      if r.Err? then Err(r.error)
      else MuxAsWritten(graph, m, resources, order[1..])
  }

  /**
   * One unit as written: it passes exactly when neither position has a source.
   * Otherwise, at the first position with a source, it raises `AttributeError`
   * when an operand there is an identifier node and `KeyError` on the unit's
   * name when all are operator nodes.
   */
  lemma UnitAsWrittenResult(graph: seq<Node>, m: map<int, ScheduledNodeInfo>, group: seq<ScheduledNodeInfo>, name: string)
    requires RefsInRange(graph) && MapOk(graph, m) && EntriesOfArena(graph, group)
    ensures var r := UnitAsWritten(graph, m, group, name);
      && (r.Ok? <==> MuxSources(graph, m, group, 0) == {} && MuxSources(graph, m, group, 1) == {})
      && (r.Err? ==>
            var pos := if MuxSources(graph, m, group, 0) != {} then 0 else 1;
            && MuxSources(graph, m, group, pos) != {}
            && r.error == if LeafOperand(graph, group, pos) then AttributeError("value") else KeyError(name))
  {
    SourcesAsWrittenOkIff(graph, m, group, 0);
    SourcesAsWrittenOkIff(graph, m, group, 1);
    LeafHasSource(graph, m, group, 0);
    LeafHasSource(graph, m, group, 1);
  }

  /** A position with an identifier operand has a source. */
  lemma LeafHasSource(graph: seq<Node>, m: map<int, ScheduledNodeInfo>, group: seq<ScheduledNodeInfo>, pos: nat)
    requires RefsInRange(graph) && MapOk(graph, m) && EntriesOfArena(graph, group)
    ensures LeafOperand(graph, group, pos) ==> MuxSources(graph, m, group, pos) != {}
  {
    if LeafOperand(graph, group, pos) {
      var a :| 0 <= a < |group| && LeafAt(graph, OperandAt(graph[group[a].node], pos));
      assert GetOperandSource(graph, m, OperandAt(graph[group[a].node], pos)) in MuxSources(graph, m, group, pos);
    }
  }

  /**
   * As written, building the tables succeeds only when no unit has a source at
   * either position, and then leaves them empty. Otherwise it fails on the
   * first unit that has one: `AttributeError` when an operand at that position
   * is an identifier node, `KeyError` on the unit's name when none is.
   */
  lemma {:induction false} MuxAsWrittenOkIff(graph: seq<Node>, m: map<int, ScheduledNodeInfo>,
                                            resources: map<string, seq<ScheduledNodeInfo>>, order: seq<string>)
    requires RefsInRange(graph) && MapOk(graph, m) && GroupsOk(graph, resources)
    requires forall k :: 0 <= k < |order| ==> order[k] in resources
    ensures MuxAsWritten(graph, m, resources, order).Ok? <==>
      forall k, pos :: 0 <= k < |order| && pos < 2 ==> MuxSources(graph, m, resources[order[k]], pos) == {}
    ensures MuxAsWritten(graph, m, resources, order).Ok? ==> MuxAsWritten(graph, m, resources, order).value == map[]
    ensures MuxAsWritten(graph, m, resources, order).Err? ==>
      exists k :: 0 <= k < |order| && UnitAsWritten(graph, m, resources[order[k]], order[k]).Err?
                  && MuxAsWritten(graph, m, resources, order).error
                     == UnitAsWritten(graph, m, resources[order[k]], order[k]).error
                  && forall j :: 0 <= j < k ==> UnitAsWritten(graph, m, resources[order[j]], order[j]).Ok?
    decreases |order|
  {
    if order != [] {
      var rest := order[1..];
      MuxAsWrittenOkIff(graph, m, resources, rest);
      UnitAsWrittenResult(graph, m, resources[order[0]], order[0]);
      forall k | 0 <= k < |rest| ensures rest[k] == order[k + 1] { }
      if MuxAsWritten(graph, m, resources, order).Ok? {
        forall k, pos | 0 <= k < |order| && pos < 2 ensures MuxSources(graph, m, resources[order[k]], pos) == {} {
          if k > 0 {
            assert order[k] == rest[k - 1];
          }
        }
      } else if UnitAsWritten(graph, m, resources[order[0]], order[0]).Ok? {
        var k :| 0 <= k < |rest| && UnitAsWritten(graph, m, resources[rest[k]], rest[k]).Err?
                 && MuxAsWritten(graph, m, resources, rest).error
                    == UnitAsWritten(graph, m, resources[rest[k]], rest[k]).error
                 && forall j :: 0 <= j < k ==> UnitAsWritten(graph, m, resources[rest[j]], rest[j]).Ok?;
        forall j | 0 <= j < k + 1 ensures UnitAsWritten(graph, m, resources[order[j]], order[j]).Ok? {
          if j > 0 {
            assert order[j] == rest[j - 1];
          }
        }
        assert order[k + 1] == rest[k];
      }
    }
  }

  /** The graph of `a + b` and its one scheduled entry, on unit `ALU0` in cycle 0. */
  function SumGraph(): seq<Node> {
    [Identifier(0, NameLeaf("a"), 1), Identifier(1, NameLeaf("b"), 1),
     Operator(2, ALU, Bin(Add), Some("+"), Some(0), Some(1), 0)]
  }

  function SumSchedule(): seq<ScheduledNodeInfo> {
    [ScheduledNodeInfo(2, 0, 0)]
  }

  /** Its one entry runs on `ALU0`, which is therefore the one unit in insertion order. */
  lemma SumOrder()
    ensures UnitOf(SumGraph(), SumSchedule()[0]) == "ALU0"
    ensures UnitOrder(SumGraph(), SumSchedule()) == ["ALU0"]
  {
    var g, s := SumGraph(), SumSchedule();
    assert DecimalString(0) == "0";
    assert UnitOf(g, s[0]) == "ALU0";
    assert UnitNames(g, s) == ["ALU0"];
    assert ["ALU0"][..0] == [];
  }

  /** As written, input collection raises on the `value` of `a`; corrected, it collects `a`. */
  lemma SumInputs()
    ensures ScheduleOk(SumGraph(), SumSchedule())
    ensures CollectInputsAsWritten(SumGraph(), SumSchedule()) == Err(AttributeError("value"))
    ensures IsInputName(SumGraph(), SumSchedule(), "a")
  {
    var g, s := SumGraph(), SumSchedule();
    assert 0 in Operands(g[2]);
    assert s[..0] == [];
  }

  /** As written, grouping raises on `ALU0`; corrected, it puts the entry under `ALU0`. */
  lemma SumGrouping()
    ensures GroupAsWritten(SumGraph(), SumSchedule()) == Err(KeyError("ALU0"))
    ensures ResourcesOf(SumGraph(), SumSchedule(), map["ALU0" := SumSchedule()])
  {
    var g, s := SumGraph(), SumSchedule();
    SumOrder();
    assert s[..0] == [];
    assert OnUnit(g, s, "ALU0") == s;
  }

  /** As written, the multiplexer tables raise on the `value` of `a`, the sum's left operand. */
  lemma SumMux()
    ensures MuxAsWritten(SumGraph(), map[2 := SumSchedule()[0]], map["ALU0" := SumSchedule()], ["ALU0"])
            == Err(AttributeError("value"))
  {
    var g, s := SumGraph(), SumSchedule();
    assert s[..0] == [];
    assert SourcesAsWritten(g, map[2 := s[0]], s, 0) == Err(AttributeError("value"));
  }

  /**
   * On `a + b`, each of the three steps as written raises: input collection
   * and the multiplexer tables on the `value` of leaf `a`, the grouping on
   * `ALU0`. The corrected model collects the input `a` and groups the entry
   * under `ALU0`.
   */
  lemma SumCounterexample()
    ensures ScheduleOk(SumGraph(), SumSchedule())
    ensures CollectInputsAsWritten(SumGraph(), SumSchedule()) == Err(AttributeError("value"))
    ensures IsInputName(SumGraph(), SumSchedule(), "a")
    ensures GroupAsWritten(SumGraph(), SumSchedule()) == Err(KeyError("ALU0"))
    ensures ResourcesOf(SumGraph(), SumSchedule(), map["ALU0" := SumSchedule()])
    ensures UnitOrder(SumGraph(), SumSchedule()) == ["ALU0"]
    ensures MuxAsWritten(SumGraph(), map[2 := SumSchedule()[0]], map["ALU0" := SumSchedule()],
                         UnitOrder(SumGraph(), SumSchedule()))
            == Err(AttributeError("value"))
  {
    SumInputs();
    SumGrouping();
    SumOrder();
    SumMux();
  }

  /**
   * `(f(x) + g(y)) * (h(z) - k(w))`: the calls are syntax the builder does not
   * recognise, so the sum and the difference have no operands and the product
   * takes both as operands. Node ids are those of a fresh build.
   */
  function CallsGraph(): seq<Node> {
    [Operator(0, ALU, Bin(Add), Some("+"), None, None, 1),
     Operator(1, ALU, Bin(Sub), Some("—"), None, None, 1),
     Operator(2, MULT, Bin(Mult), Some("*"), Some(0), Some(1), 0)]
  }

  /** The sum and the difference in cycle 1 on `ALU0` and `ALU1`, the product in cycle 2 on `mult0`. */
  function CallsSchedule(): seq<ScheduledNodeInfo> {
    [ScheduledNodeInfo(0, 1, 0), ScheduledNodeInfo(1, 1, 1), ScheduledNodeInfo(2, 2, 0)]
  }

  /** Input collection as written meets no leaf, so it succeeds and collects nothing. */
  lemma CallsInputs()
    ensures ScheduleOk(CallsGraph(), CallsSchedule())
    ensures CollectInputsAsWritten(CallsGraph(), CallsSchedule()) == Ok({})
  {
    var g, s := CallsGraph(), CallsSchedule();
    assert s[..2] == [s[0], s[1]] && s[..2][..1] == [s[0]] && [s[0]][..0] == [];
    assert CollectInputsAsWritten(g, [s[0]]) == Ok({});
    assert CollectInputsAsWritten(g, s[..2]) == Ok({});
    assert !LeafAt(g, g[2].left) && !LeafAt(g, g[2].right);
  }

  /** The three entries run on `ALU0`, `ALU1` and `mult0`. */
  lemma CallsUnits()
    ensures UnitOf(CallsGraph(), CallsSchedule()[0]) == "ALU0"
    ensures UnitOf(CallsGraph(), CallsSchedule()[1]) == "ALU1"
    ensures UnitOf(CallsGraph(), CallsSchedule()[2]) == "mult0"
  {
    assert DecimalString(0) == "0";
    assert DecimalString(1) == "1";
  }

  /** `ALU0` runs exactly the sum. */
  lemma CallsOnAlu0()
    ensures OnUnit(CallsGraph(), CallsSchedule(), "ALU0") == [CallsSchedule()[0]]
  {
    var g, s := CallsGraph(), CallsSchedule();
    CallsUnits();
    assert s[..2] == [s[0], s[1]] && s[..2][..1] == [s[0]] && [s[0]][..0] == [];
    var key := UnitKey(g);
    assert key(s[0]) == "ALU0" && key(s[1]) == "ALU1" && key(s[2]) == "mult0";
    assert Where(s[..2][..1], key, "ALU0") == [s[0]];
    assert Where(s[..2], key, "ALU0") == [s[0]];
  }

  /** `ALU1` runs exactly the difference. */
  lemma CallsOnAlu1()
    ensures OnUnit(CallsGraph(), CallsSchedule(), "ALU1") == [CallsSchedule()[1]]
  {
    var g, s := CallsGraph(), CallsSchedule();
    CallsUnits();
    assert s[..2] == [s[0], s[1]] && s[..2][..1] == [s[0]] && [s[0]][..0] == [];
    var key := UnitKey(g);
    assert key(s[0]) == "ALU0" && key(s[1]) == "ALU1" && key(s[2]) == "mult0";
    assert Where(s[..2][..1], key, "ALU1") == [];
    assert Where(s[..2], key, "ALU1") == [s[1]];
  }

  /** `mult0` runs exactly the product. */
  lemma CallsOnMult0()
    ensures OnUnit(CallsGraph(), CallsSchedule(), "mult0") == [CallsSchedule()[2]]
  {
    var g, s := CallsGraph(), CallsSchedule();
    CallsUnits();
    assert s[..2] == [s[0], s[1]] && s[..2][..1] == [s[0]] && [s[0]][..0] == [];
    var key := UnitKey(g);
    assert key(s[0]) == "ALU0" && key(s[1]) == "ALU1" && key(s[2]) == "mult0";
    assert Where(s[..2][..1], key, "mult0") == [];
    assert Where(s[..2], key, "mult0") == [];
  }

  /** The corrected grouping has a list for exactly the units the entries run on. */
  lemma CallsGroupKeys()
    ensures forall u :: u in CallsGroups() <==>
              exists a :: 0 <= a < |CallsSchedule()| && UnitOf(CallsGraph(), CallsSchedule()[a]) == u
  {
    var g, s, res := CallsGraph(), CallsSchedule(), CallsGroups();
    assert res.Keys == {"ALU0", "ALU1", "mult0"};
    CallsUnits();
    forall u
      ensures u in res <==> exists a :: 0 <= a < |s| && UnitOf(g, s[a]) == u
    {
      if u == "ALU0" {
        assert UnitOf(g, s[0]) == u;
      } else if u == "ALU1" {
        assert UnitOf(g, s[1]) == u;
      } else if u == "mult0" {
        assert UnitOf(g, s[2]) == u;
      }
    }
  }

  /** Each list of the corrected grouping is what the unit runs. */
  lemma CallsGroupValues()
    ensures forall u :: u in CallsGroups() ==> CallsGroups()[u] == OnUnit(CallsGraph(), CallsSchedule(), u)
  {
    var res := CallsGroups();
    assert res.Keys == {"ALU0", "ALU1", "mult0"};
    CallsOnAlu0();
    CallsOnAlu1();
    CallsOnMult0();
  }

  /** The corrected grouping puts each entry on its own unit. */
  lemma CallsResources()
    ensures ResourcesOf(CallsGraph(), CallsSchedule(), CallsGroups())
  {
    CallsGroupKeys();
    CallsGroupValues();
  }

  /** The corrected grouping of that schedule: one entry per unit. */
  function CallsGroups(): map<string, seq<ScheduledNodeInfo>> {
    map["ALU0" := [CallsSchedule()[0]], "ALU1" := [CallsSchedule()[1]], "mult0" := [CallsSchedule()[2]]]
  }

  /** `node_map` of that schedule. */
  function CallsMap(): map<int, ScheduledNodeInfo> {
    map[0 := CallsSchedule()[0], 1 := CallsSchedule()[1], 2 := CallsSchedule()[2]]
  }

  /** That `node_map` and those groups hold entries of the arena. */
  lemma CallsArgs()
    ensures MapOk(CallsGraph(), CallsMap()) && GroupsOk(CallsGraph(), CallsGroups())
  {
    var g, s := CallsGraph(), CallsSchedule();
    assert InfoOk(g, s[0]) && InfoOk(g, s[1]) && InfoOk(g, s[2]);
  }

  /** The units `ALU0` and `ALU1` run nodes without operands, so neither has a source. */
  lemma CallsQuietUnits()
    ensures UnitAsWritten(CallsGraph(), CallsMap(), [CallsSchedule()[0]], "ALU0") == Ok(())
    ensures UnitAsWritten(CallsGraph(), CallsMap(), [CallsSchedule()[1]], "ALU1") == Ok(())
  {
    var g, s, m := CallsGraph(), CallsSchedule(), CallsMap();
    assert [s[0]][..0] == [] && [s[1]][..0] == [];
    assert s[0].node == 0 && s[1].node == 1;
    assert OperandAt(g[0], 0).None? && OperandAt(g[0], 1).None?;
    assert OperandAt(g[1], 0).None? && OperandAt(g[1], 1).None?;
    assert SourcesAsWritten(g, m, [s[0]], 0) == Ok({});
    assert SourcesAsWritten(g, m, [s[0]], 1) == Ok({});
    assert SourcesAsWritten(g, m, [s[1]], 0) == Ok({});
    assert SourcesAsWritten(g, m, [s[1]], 1) == Ok({});
  }

  /** Unit `mult0` reads the register of the sum at position 0 and so reaches the write at line 44. */
  lemma CallsMultUnit()
    ensures UnitAsWritten(CallsGraph(), CallsMap(), [CallsSchedule()[2]], "mult0") == Err(KeyError("mult0"))
  {
    var g, s, m := CallsGraph(), CallsSchedule(), CallsMap();
    assert [s[2]][..0] == [];
    assert s[2].node == 2 && OperandAt(g[2], 0) == Some(0) && g[0].Operator?;
    assert SourcesAsWritten(g, m, [s[2]][..0], 0) == Ok({});
    var src := GetOperandSource(g, m, Some(0));
    assert {} + {src} == {src};
    assert SourcesAsWritten(g, m, [s[2]], 0) == Ok({GetOperandSource(g, m, Some(0))});
  }

  /** Over those groups, `ALU0` and `ALU1` pass and the first write for `mult0` raises. */
  lemma CallsMux()
    ensures MuxAsWritten(CallsGraph(), CallsMap(), CallsGroups(), ["ALU0", "ALU1", "mult0"])
            == Err(KeyError("mult0"))
  {
    var s := CallsSchedule();
    var order := ["ALU0", "ALU1", "mult0"];
    CallsQuietUnits();
    CallsMultUnit();
    assert order[1..] == ["ALU1", "mult0"] && order[1..][1..] == ["mult0"];
  }

  /** Sorting the product's entry alone leaves it. */
  lemma CallsSortedLast()
    ensures SortById(CallsGraph(), [CallsSchedule()[2]]) == [CallsSchedule()[2]]
  {
    var s := CallsSchedule();
    assert [s[2]][1..] == [];
  }

  /** Sorting the difference's and the product's entries leaves them, since ids 1 and 2 are in order. */
  lemma CallsSortedTail()
    ensures SortById(CallsGraph(), CallsSchedule()[1..]) == CallsSchedule()[1..]
  {
    var g, s := CallsGraph(), CallsSchedule();
    CallsSortedLast();
    assert s[1..] == [s[1], s[2]] && s[1..][1..] == [s[2]];
    assert IdOf(g, s[1]) <= IdOf(g, s[2]);
    assert InsertById(g, s[1], [s[2]]) == [s[1]] + [s[2]];
  }

  /** The schedule is already in id order, as `sorted` leaves it. */
  lemma CallsSorted()
    ensures SortById(CallsGraph(), CallsSchedule()) == CallsSchedule()
  {
    var g, s := CallsGraph(), CallsSchedule();
    CallsSortedTail();
    assert IdOf(g, s[0]) <= IdOf(g, s[1]);
    assert InsertById(g, s[0], s[1..]) == [s[0]] + s[1..];
    assert s == [s[0]] + s[1..];
  }

  /** Its units come in the order `ALU0`, `ALU1`, `mult0`. */
  lemma CallsOrder()
    ensures UnitOrder(CallsGraph(), CallsSchedule()) == ["ALU0", "ALU1", "mult0"]
  {
    var names: seq<string> := ["ALU0", "ALU1", "mult0"];
    CallsUnits();
    assert UnitNames(CallsGraph(), CallsSchedule()) == names;
    assert names[..2] == ["ALU0", "ALU1"] && names[..2][..1] == ["ALU0"] && names[..1][..0] == [];
    assert FirstOccurrences(names[..1]) == ["ALU0"];
    assert FirstOccurrences(names[..2]) == ["ALU0", "ALU1"];
  }

  /** As written, the grouping raises on the unit of the sum, the first entry. */
  lemma CallsGrouping()
    ensures GroupAsWritten(CallsGraph(), CallsSchedule()) == Err(KeyError("ALU0"))
  {
    CallsUnits();
    GroupAsWrittenFails(CallsGraph(), CallsSchedule());
  }

  /**
   * With no leaf among the operands, input collection as written succeeds and
   * the grouping as written raises `KeyError('ALU0')`. Once the grouping is
   * corrected, the multiplexer tables as written, over the units in insertion
   * order, raise `KeyError('mult0')`: the units `ALU0` and `ALU1` have no
   * source, and the registers feeding `mult0` reach the write at line 44.
   */
  lemma CallsCounterexample()
    ensures ScheduleOk(CallsGraph(), CallsSchedule())
    ensures SortById(CallsGraph(), CallsSchedule()) == CallsSchedule()
    ensures MapOk(CallsGraph(), CallsMap()) && GroupsOk(CallsGraph(), CallsGroups())
    ensures CollectInputsAsWritten(CallsGraph(), CallsSchedule()) == Ok({})
    ensures GroupAsWritten(CallsGraph(), CallsSchedule()) == Err(KeyError("ALU0"))
    ensures ResourcesOf(CallsGraph(), CallsSchedule(), CallsGroups())
    ensures UnitOrder(CallsGraph(), CallsSchedule()) == ["ALU0", "ALU1", "mult0"]
    ensures MuxAsWritten(CallsGraph(), CallsMap(), CallsGroups(), UnitOrder(CallsGraph(), CallsSchedule()))
            == Err(KeyError("mult0"))
  {
    CallsInputs();
    CallsSorted();
    CallsOrder();
    CallsGrouping();
    CallsResources();
    CallsArgs();
    CallsMux();
  }
}

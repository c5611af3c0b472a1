# A verified model of a miniature high-level-synthesis pipeline

The pipeline turns a scalar Python expression into a data-flow graph, schedules
the graph's operator nodes onto functional units, and derives what the code
generator needs for the `datapath` module: register names, input ports,
resource groups, operand multiplexer tables, op-code widths and the port list.
This project models its three stages in Dafny and proves what each promises.

- **Graph builder** (`GraphBuilder.build` in `src/dfg_creator.py` and
  `src/1.py`). The syntax tree is the datatype `Syntax.Expr`. The graph is an
  arena (`seq<Node>`) whose operands are optional indices, so the arena index
  stands for Python object identity. The recursion is specified by the function
  `DfgSpec.Walk` over an explicit state holding `all_nodes`, the `node_id`
  counter and the `visited_identifiers` dictionary. The class
  `DfgBuilder.GraphBuilder` updates its `allNodes` field in place, and its
  methods are proved equal to `Walk`. One `Variant` parameter selects the file:
  - `ConstantSharing` is `src/dfg_creator.py`: five categories, constants
    interned, and a display symbol on each operator node;
  - `NamesOnly` is `src/1.py`: seven categories, names only.
- **List scheduler** (`src/scheduler.py`). `ScheduledNodeInfo` is a record.
  `ListScheduler` is a class over the recorded list. The cycle loop that the
  doc comments describe is a method that accepts any admissible selection,
  since the source fixes no priority. `find_latest_times` is an
  as-late-as-possible pass with unit durations.
- **Resource binder** (`VerilogGenerator` in `src/code_generator.py`). The
  constructor sorts the schedule, builds `node_map`, collects inputs, groups
  entries by unit and builds the multiplexer tables. Each step is a method
  proved against a specification. `GenerateDatapath` produces the port list as
  a sequence of `PortLine` values.

Where the specification and the code disagree, the model follows the code:
- An unrecognised syntax node prints a message and yields `None` rather than
  raising (`src/dfg_creator.py:181-183`, `src/1.py:137-139`).
- `src/dfg_creator.py` has five categories, not seven: unary operators and
  comparisons fall into `logic` and `ALU`.
- The scheduler's selection policy and tie-breaking are left open, because the
  scheduling methods are stubs whose doc comments name no policy.

## Model

| member | source | states |
|---|---|---|
| Categories.OpTypes | src/dfg_creator.py:5 | `OP_TYPES` has five distinct categories in `src/dfg_creator.py` and seven in `src/1.py` |
| Categories.OpMap | src/dfg_creator.py:7-15 | every category the `op_map` table gives is listed in `OP_TYPES` |
| Categories.OpTypesAreTableValues | src/1.py:5-16 | a category is in `OP_TYPES` exactly when it is a value of `op_map` |
| Categories.SevenCategoryTable | src/1.py:7-16 | each of the seven categories holds exactly its group of operators; `MatMult`, `Is`, `IsNot`, `In` and `NotIn` have none |
| Categories.OperatorNodeCheck | src/dfg_creator.py:63-64 | the `OperatorNode` check accepts a category string exactly when the operator has a table entry, so the `'?'` fallback is rejected |
| Categories.Symbol | src/dfg_creator.py:17-39 | the symbol table has an entry exactly for the operators that `op_map` has |
| Categories.ResourceAllocator | src/dfg_creator.py:82-83 | the resource category of a node is its `op_type` |
| DfgSpec.MakeOperator | src/dfg_creator.py:105-113 | creating an operator node succeeds exactly when the table has a category, and the node carries that category, the operator, both operands, the depth and the id |
| DfgSpec.Intern | src/dfg_creator.py:157-179 | interning keeps every dictionary entry pointing at an identifier node with that key |
| DfgSpec.Walk | src/dfg_creator.py:94-183 | each recursive call keeps the interning dictionary consistent with the arena |
| DfgBuilder.GraphBuilder.constructor | src/dfg_creator.py:86-87 | a new builder has an empty `all_nodes` |
| DfgBuilder.GraphBuilder.Build | src/dfg_creator.py:89-185 | `build` returns the root that `Walk` gives from depth 0 with an empty dictionary, and leaves its arena in `all_nodes` |
| DfgBuilder.GraphBuilder.BuildDfg | src/dfg_creator.py:94-183 | the recursion, mutating `all_nodes` and threading the counter and dictionary, equals `Walk` |
| DfgBuilder.GraphBuilder.NewOperator | src/dfg_creator.py:105-117 | constructing, numbering and appending an operator node equals `Finish` |
| DfgBuilder.GraphBuilder.InternLeaf | src/dfg_creator.py:157-179 | reusing and deepening, or creating and interning, a leaf equals `Intern` |
| DfgFrame.InternFacts | src/dfg_creator.py:157-179 | a leaf step only appends or deepens, and keeps the numbering and interning invariant |
| DfgFrame.FinishFacts | src/dfg_creator.py:105-117 | an operator step appends one node numbered `node_id` whose operands are earlier nodes |
| DfgFrame.WalkFacts | src/dfg_creator.py:94-183 | every step only extends the state and keeps the invariant: created nodes are numbered in creation order, each created leaf is the one interned under its key, and operands come earlier |
| DfgFrame.ChainFacts | src/dfg_creator.py:138-153 | the same for the loop over the comparison pairs |
| DfgFrame.LinkFacts | src/dfg_creator.py:139-153 | the same for one comparison link |
| DfgDepth.InternLeafDepth | src/dfg_creator.py:158-161 | a repeated key raises its node's depth to the maximum of the old depth and the new one, and no other key changes |
| DfgDepth.WalkDepth | src/dfg_creator.py:157-179 | after a successful step, each key's node is as deep as the deepest of its earlier depth and the occurrences visited |
| DfgDepth.ChainDepth | src/dfg_creator.py:134-155 | the same over the comparison pairs from a given one |
| DfgDepth.BuildLeafDepth | src/dfg_creator.py:157-179 | after a whole build, a key is interned exactly when the tree uses it, and its node's depth is the maximum over all its occurrences |
| DfgDepth.BuildNumbering | src/dfg_creator.py:111-116 | created nodes carry ids 0, 1, 2, ... in creation order, every operand is an earlier node with a smaller id, and no two created leaves share a key |
| DfgDepth.FreshBuildNumbering | src/dfg_creator.py:91-92 | on a fresh builder `all_nodes[i].id == i` and every operand precedes its user |
| DfgResult.WalkGrows | src/dfg_creator.py:94-183 | a step, successful or not, never removes or rewrites a node; it only deepens identifier nodes |
| DfgResult.WalkOrdered | src/dfg_creator.py:102-110 | operands are built one level deeper than their operator node (a comparison's left operand may be the previous link, at the same depth) |
| DfgResult.FreshBuildDepthOrdered | src/dfg_creator.py:185 | a whole build is depth-ordered, and the root node it returns has depth 0 (except for a comparison without pairs, which returns its left operand) |
| DfgResult.BinOpResult | src/dfg_creator.py:101-117 | a binary operation returns a fresh last node for its operator over the left and then the right operand |
| DfgResult.UnaryOpResult | src/dfg_creator.py:119-132 | a unary operation returns a fresh node whose left operand is its operand and whose right slot is empty |
| DfgResult.LinkResult | src/dfg_creator.py:139-153 | one link is a fresh comparison node between the current node and the comparator |
| DfgResult.ChainFold | src/dfg_creator.py:138-155 | a chain folds to the left: its result is the node of the last operator, whose left operand is the node of the link before it |
| DfgResult.CompareResult | src/dfg_creator.py:134-155 | with no pair the comparison is its left operand; otherwise it returns a fresh node for the last operator, which with one pair compares the left operand |
| DfgShape.OperatorCountAppend | src/dfg_creator.py:116 | appending a node adds one to the operator count exactly when it is an operator node |
| DfgShape.WalkCounted | src/dfg_creator.py:101-155 | each operator occurrence creates exactly one operator node, and leaves are created only for new keys |
| DfgShape.ChainCounted | src/dfg_creator.py:138-153 | the same for the comparison pairs from a given one |
| DfgShape.WalkOkIffSupported | src/dfg_creator.py:63-64 | the build raises exactly when it visits an operator that has no category |
| DfgShape.ChainOkIffSupported | src/dfg_creator.py:138-153 | the same for the comparison pairs from a given one |
| DfgShape.NamesOnlyBuildsNoConstants | src/1.py:137-139 | the `src/1.py` builder never creates a node for a constant |
| DfgFindings.WalkAsWritten | src/dfg_creator.py:134-155 | the comparison branch as written keeps the interning dictionary consistent |
| DfgFindings.AsWrittenAgreesWithoutChains | src/dfg_creator.py:94-183 | on trees without a comparison link, the code as written and the corrected build agree |
| DfgFindings.AsWrittenRaisesOnChains | src/dfg_creator.py:148 | as written, every tree whose build reaches a comparison link raises |
| DfgFindings.AsWrittenOkIff | src/dfg_creator.py:148 | as written, the build succeeds exactly on chain-free trees whose operators all have a category |
| DfgFindings.LessThanCounterexample | src/dfg_creator.py:141-149 | on `a < b` the code as written raises `AttributeError` on `op`, while the corrected build returns node 2 |
| Scheduler.InsertById | src/scheduler.py:35 | inserting keeps the entries as a multiset |
| Scheduler.SortById | src/scheduler.py:34-35 | the result is sorted by node id and is a permutation of the entries |
| Scheduler.SortByIdStable | src/scheduler.py:35 | entries with equal ids keep their recorded order |
| Scheduler.DefaultPoolUnits | src/scheduler.py:15-16 | with no resource map, each `OP_TYPES` category has one unit, so every category of the `src/dfg_creator.py` table has one; `unary` and `cmp` have none |
| Scheduler.ListScheduler.constructor | src/scheduler.py:13-20 | the root is stored, the pool is the given map or the default one, and the list is empty |
| Scheduler.ListScheduler.RecordScheduledNode | src/scheduler.py:26-28 | exactly one entry is appended, and earlier entries and the other fields are unchanged |
| Scheduler.ListScheduler.GetSchedulingInfo | src/scheduler.py:34-35 | returns a permutation of the recorded entries sorted by node id, without changing them |
| Scheduler.ListScheduler.FindCandidateNodes | src/scheduler.py:38-44 | a node is returned exactly when it is an unscheduled operator node whose operands are identifiers or scheduled operator nodes |
| Scheduler.ListScheduler.SelectFromFrontier | src/scheduler.py:47-53 | the selection is distinct nodes of the frontier, stays within each category's unit count, and leaves a node out only when its category's units are all taken |
| Scheduler.ListScheduler.RecordCycle | src/scheduler.py:26-28 | records each selected node at the cycle, on the next free unit of its category |
| Scheduler.CycleRecordsAt | src/scheduler.py:26-28 | the `k`-th selected node is recorded at the cycle, on unit number equal to the count of earlier selected nodes of its category |
| Scheduler.CycleStep | src/scheduler.py:56-62 | recording a valid selection extends a valid schedule of the earlier cycles by one cycle |
| Scheduler.CycleLoad | src/scheduler.py:47-53 | in any cycle a category runs no more operations than it has units |
| Scheduler.CandidateExists | src/scheduler.py:38-44 | when operands come earlier in the arena and some operator node is unscheduled, some node is ready |
| Scheduler.ReadyWhenOrdered | src/scheduler.py:38-44 | the same, from the set of scheduled nodes alone |
| Scheduler.ListScheduler.ScheduleCycle | src/scheduler.py:56-62 | one cycle keeps the old entries as a prefix and appends the cycle-`time` records of a non-empty selection of ready nodes that fits the units, so the list stays a valid partial schedule and holds at least one more node; a failed cycle leaves the list unchanged, and a schedulable graph never fails |
| Scheduler.ListScheduler.Schedule | src/scheduler.py:56-62 | on success every operator node is recorded exactly once, after its operands, within the unit counts, by cycle `#operators`; success is certain when operands come earlier and each category in use has a unit |
| Scheduler.LatestFeasible | src/scheduler.py:98-101 | the latest times are at most `max_time` and each is below those of the node's consumers |
| Scheduler.LatestGreatest | src/scheduler.py:98-101 | no feasible assignment gives an operator node a later time |
| Scheduler.MinResourceScheduler.constructor | src/scheduler.py:91-95 | the latest times are stored before any node is scheduled |
| Scheduler.MinResourceScheduler.FindLatestTimes | src/scheduler.py:103-106 | the backward pass computes the latest time of every operator node |
| Strings.Digits | src/code_generator.py:57 | `str(n)` of a natural number is a non-empty run of digits without a leading zero |
| Strings.DecimalRoundTrip | src/code_generator.py:57 | reading back `str(n)` gives `n` |
| Strings.DecimalInjective | src/code_generator.py:57 | `str` is injective on integers, so unit names do not collide |
| Strings.Lower | src/code_generator.py:88 | `lower()` keeps the length and lower-cases each ASCII letter |
| Strings.ContainsLettersBeforeNonLetters | src/code_generator.py:90 | a word of letters occurs in `name + digits` exactly when it occurs in `name` |
| Strings.SortStrings | src/code_generator.py:101 | `sorted` returns the elements of the set in strictly ascending order |
| Strings.SortedUnique | src/code_generator.py:108 | the sorted order of a set is unique |
| VerilogNames.UnitNameInjective | src/code_generator.py:57 | a unit name determines its category and unit index |
| VerilogNames.NameWords | src/code_generator.py:87-93 | only the `ALU` name contains `alu`, and only the `logic` name contains `logic` |
| VerilogNames.UnitOpWidth | src/code_generator.py:87-93 | a unit's op-select width is 2 for `ALU` and `logic` units and 1 otherwise |
| VerilogNames.OpCodesFit | src/code_generator.py:60-81 | every op code fits the op-select width of the unit `src/dfg_creator.py` assigns its operator, and only `UAdd` lacks a code |
| CodeGenerator.SortKeepsEntries | src/code_generator.py:49 | sorting keeps the entries, so they still name operator nodes |
| CodeGenerator.IdMapAt | src/code_generator.py:50 | the id map has a key exactly for each id of the schedule, holding the last entry with that id |
| CodeGenerator.IdMapIsNodeMap | src/code_generator.py:50 | the id map is `node_map` |
| CodeGenerator.BuildNodeMap | src/code_generator.py:50 | the dictionary comprehension builds `node_map` |
| CodeGenerator.RegNameOfId | src/code_generator.py:8-12 | the register name is `unknown` exactly for ids no entry carries, and otherwise `reg_<category><id>` of the scheduled node |
| CodeGenerator.RegStringInjective | src/code_generator.py:12 | distinct registers have distinct names, and none is named `unknown` |
| CodeGenerator.OperandAt | src/code_generator.py:39 | an operand slot that is present holds an operand of the node |
| CodeGenerator.LeafSource | src/code_generator.py:21-25 | a name leaf is its input port, and a constant leaf its literal |
| CodeGenerator.SourcesSeparateOperands | src/code_generator.py:21-29 | with unique ids and keys and scheduled operator operands, distinct operand nodes get distinct sources |
| CodeGenerator.InputNamesAreInputs | src/code_generator.py:14-19 | a name is gathered exactly when it names a name-leaf operand of an entry |
| CodeGenerator.CollectInputs | src/code_generator.py:14-19 | `inputs` is exactly the set of names of the name-leaf operands of scheduled nodes |
| CodeGenerator.OnUnitMembers | src/code_generator.py:56-58 | an entry is in the group of a unit exactly when it runs on that unit |
| CodeGenerator.OnUnitSorted | src/code_generator.py:56-58 | each group keeps the id order of the sorted schedule |
| CodeGenerator.GroupResources | src/code_generator.py:55-58 | `resources` has one key per unit in use, holding that unit's entries in order |
| CodeGenerator.GroupByIsResources | src/code_generator.py:55-58 | grouping by unit name gives that dictionary |
| CodeGenerator.EntryInOneGroup | src/code_generator.py:57 | every entry lies in exactly one group, and the group's key fixes its category and unit index |
| CodeGenerator.CollectSources | src/code_generator.py:36-41 | the sources of a unit and position are exactly the sources of the present operands at that position |
| CodeGenerator.EnumerateSources | src/code_generator.py:43-44 | the selector indices are distinct, lie in `[0, #sources)`, and cover exactly the sources |
| CodeGenerator.SelectorsCard | src/code_generator.py:43-44 | an injective table has as many selector values as sources |
| CodeGenerator.MuxTableOnto | src/code_generator.py:43-44 | the selector indices are exactly `0 .. #sources - 1` |
| CodeGenerator.UnitMuxTables | src/code_generator.py:35-44 | each of the two positions of a unit gets a table of its sources, and a position is written only if it has a source |
| CodeGenerator.BuildMuxTables | src/code_generator.py:31-44 | `mux_tables` holds a table of its sources for every unit and position, and nothing else |
| CodeGenerator.UnitOpLine | src/code_generator.py:109-114 | a unit's op input is a two-bit bus for `ALU` and `logic` units and a single bit otherwise |
| CodeGenerator.ControlPorts | src/code_generator.py:108-116 | two selects and one op input per unit, in the order given |
| CodeGenerator.EnablePorts | src/code_generator.py:119-120 | one enable per entry, in entry order, named by the entry's register |
| CodeGenerator.PortList | src/code_generator.py:95-125 | the port list is the head, the data inputs, per unit its selects and op input, `done_next`/`result_en`, one enable per entry, then the outputs |
| CodeGenerator.VerilogGenerator.constructor | src/code_generator.py:47-85 | the stored schedule is sorted by id, and `node_map`, `inputs`, `resources` and `mux_tables` meet their specifications |
| CodeGenerator.VerilogGenerator.GenerateDatapath | src/code_generator.py:95-125 | the port list has the inputs and the units in sorted order and one enable per entry in id order |
| CodeGenFindings.CollectInputsAsWrittenOkIff | src/code_generator.py:14-19 | as written, input collection succeeds exactly when no entry reads a leaf, and then it collects nothing |
| CodeGenFindings.GroupAsWrittenFails | src/code_generator.py:55-58 | as written, grouping raises `KeyError` on the first entry's unit for every non-empty schedule |
| CodeGenFindings.SourcesAsWrittenOkIff | src/code_generator.py:36-41 | as written, gathering one position's sources raises `AttributeError('value')` exactly when an operand there is an identifier node (line 23), and otherwise gathers the corrected sources |
| CodeGenFindings.UnitAsWrittenResult | src/code_generator.py:35-44 | one unit as written passes exactly when neither position has a source; at the first position with one it raises `AttributeError` if an operand there is an identifier node, else `KeyError` on the unit name |
| CodeGenFindings.MuxAsWrittenOkIff | src/code_generator.py:31-44 | as written, for any order of the units, building the tables succeeds only when no unit has a source, and then leaves them empty; otherwise it fails with the error of the first unit in that order that fails (the examples use the insertion order of `resources`) |
| CodeGenFindings.UnitOrderKeys | src/code_generator.py:33 | `resources.items()` visits, in insertion order, each unit the schedule uses exactly once and no other |
| CodeGenFindings.SumCounterexample | src/code_generator.py:47-85 | on `a + b`, each of the three steps as written raises when taken alone: input collection, and the multiplexer tables over the insertion order, with `AttributeError('value')`; the grouping with `KeyError('ALU0')`. The corrected model collects `a` and groups the entry under `ALU0` |
| CodeGenFindings.CallsCounterexample | src/code_generator.py:31-58 | on `(f(x) + g(y)) * (h(z) - k(w))`, whose operands hold no leaf, sorting keeps the schedule and input collection as written succeeds. The grouping as written then raises `KeyError('ALU0')` at line 58. Once that line is fixed, the tables as written, over the units in insertion order, raise `KeyError('mult0')` at line 44 |
| Pipeline.FreshBuildFeedsGenerator | src/dfg_creator.py:89-185 | a fresh build's arena has operands before their users, unique ids and unique leaf keys, as the generator's lemmas assume |

## Left out

- `main.py`: file loading and saving, paths, drawing calls and the algorithm dispatch.
- `src/graph_visualizer.py`: drawing and the parser wrapper. Parsing a string into a syntax tree is outside the model, which starts from `Syntax.Expr`.
- `generate_verilog` (`src/code_generator.py:300-315`): directory creation, file writes and printing.
- The commented-out datapath body and controller (`src/code_generator.py:127-298`): not live code.
- `VerilogGenerator.GenerateDatapath`: the port list is a sequence of `PortLine` values, not Verilog text. The joining, indentation and f-string formatting are left out. The source method returns nothing, since its `return` lies in the commented-out part; the model returns the lines.
- `CodeGenerator.GetOperandSource`: sources are the datatype `Port | Lit | Reg`, not strings. A port named like a register or a literal therefore never collides with one here, whereas the text could.
- `CodeGenerator.EnumerateSources`: the order in which a Python set is enumerated is not fixed, so the model takes any order. It proves only that the indices are distinct and cover `0 .. #sources - 1`.
- `CodeGenerator.VerilogGenerator.GenerateDatapath`: requires only that the schedule and `node_map` name operator nodes, not the whole state the constructor establishes.
- `Scheduler.ListScheduler.SelectFromFrontier`: no priority or tie-break is modelled. Any selection that fits the pool and leaves nodes out only for lack of units is allowed, and unit indices are numbered in selection order within each category.
- `MinLatencyScheduler` (`src/scheduler.py:69-83`) and the other scheduling methods of `MinResourceScheduler`: they are stubs with no body or doc comment beyond the shared loop, which `ListScheduler.Schedule` models.
- The priority engine, ASAP times, slack and minimum latency are not present in the source's live code.
- `Scheduler.MinResourceScheduler.FindLatestTimes`: the source body is a stub returning an empty dictionary. The model computes as-late-as-possible times with one-cycle operations, keyed by arena index, for operator nodes only.
- Constants other than integers and strings (floats, booleans, `None`) are not modelled.
- Python object identity is the arena index. `ScheduledNodeInfo.node` is that index, not a reference.
- The `print` diagnostics for unknown syntax nodes are left out; the model returns `None` as the code does.
- `Strings.Lower`: models `lower()` on ASCII letters only.

## Findings

| source | as written | input that shows it | evidently intended | confidence | as-written member | corrected member |
|---|---|---|---|---|---|---|
| src/dfg_creator.py:148 | the symbol of a comparison link is looked up as `symbols[type(node.op)]`, and an `ast.Compare` node has no `op` | `a < b` raises `AttributeError` before its node is created | `symbols[type(op_item)]`, as `op_type` two lines above uses | not executed | DfgFindings.LessThanCounterexample | DfgResult.CompareResult |
| src/code_generator.py:18 | `_collect_inputs` (and `_get_operand_source` at line 23) reads `operand.value`, which `IdentifierNode` never sets | `a + b` scheduled on `ALU0` raises `AttributeError` | tell a name leaf from a constant leaf and collect the names | not executed | CodeGenFindings.CollectInputsAsWrittenOkIff | CodeGenerator.CollectInputs |
| src/code_generator.py:58 | `self.resources[resource_name].append(info)` on a dictionary that starts empty | `(f(x) + g(y)) * (h(z) - k(w))`: input collection meets no leaf and succeeds, then the first append raises `KeyError('ALU0')`; once line 18 is fixed, every non-empty schedule raises here | create a unit's list on first use (`setdefault`) | not executed | CodeGenFindings.CallsCounterexample | CodeGenerator.GroupResources |
| src/code_generator.py:44 | `self.mux_tables[resource_name][op_idx][src] = idx` on the empty dictionary of line 84 | once line 58 is fixed, `(f(x) + g(y)) * (h(z) - k(w))` with the sum, difference and product on `ALU0`, `ALU1` and `mult0` raises `KeyError('mult0')`; the calls leave the sum and difference without operands, so no `value` is read first | create the nested dictionaries on first write | not executed | CodeGenFindings.CallsCounterexample | CodeGenerator.BuildMuxTables |

/**
 * `VerilogGenerator` of `src/code_generator.py`: it sorts the schedule by node
 * id, indexes it by id, gathers the input ports, groups the entries by
 * functional unit, builds one multiplexer table per unit and operand position,
 * and emits the port list of the `datapath` module.
 *
 * Leaves are read through the `Leaf` datatype (a name or a constant) rather
 * than the `value` attribute the source reads, and the two dictionaries that
 * the source indexes before creating their keys fill in as `setdefault` would.
 */
module CodeGenerator {
  import opened Wrappers
  import opened Syntax
  import opened Categories
  import opened Graph
  import opened Strings
  import opened VerilogNames
  import opened Scheduler
  import opened SetLemmas
  import opened Grouping

  /** The entry names an operator node of the arena (`info.node` is an `OperatorNode`). */
  predicate InfoOk(graph: seq<Node>, info: ScheduledNodeInfo) {
    info.node < |graph| && graph[info.node].Operator?
  }

  predicate EntriesOfArena(graph: seq<Node>, s: seq<ScheduledNodeInfo>) {
    forall a :: 0 <= a < |s| ==> InfoOk(graph, s[a])
  }

  /** The generator's input: a well-formed arena and entries that name its operator nodes. */
  predicate ScheduleOk(graph: seq<Node>, sched: seq<ScheduledNodeInfo>) {
    RefsInRange(graph) && EntriesOfArena(graph, sched)
  }

  /** Sorting keeps the entries, so it keeps them inside the arena. */
  lemma SortKeepsEntries(graph: seq<Node>, sched: seq<ScheduledNodeInfo>)
    requires ScheduleOk(graph, sched)
    ensures ScheduleOk(graph, SortById(graph, sched))
  {
    var r := SortById(graph, sched);
    forall a | 0 <= a < |r| ensures InfoOk(graph, r[a]) {
      assert r[a] in multiset(r);
      var b :| 0 <= b < |sched| && sched[b] == r[a];
    }
  }

  // ----- node_map and _get_reg_name -----

  /** Every entry of the id map names an operator node of the arena. */
  predicate MapOk(graph: seq<Node>, m: map<int, ScheduledNodeInfo>) {
    forall k :: k in m ==> InfoOk(graph, m[k])
  }

  /**
   * `m` is `{info.node.id: info for info in sched}`: a key for each id in the
   * schedule and no other, mapped to the last entry with that id.
   */
  ghost predicate NodeMapOf(graph: seq<Node>, sched: seq<ScheduledNodeInfo>, m: map<int, ScheduledNodeInfo>) {
    && MapOk(graph, m)
    && (forall k :: k in m <==> exists a :: 0 <= a < |sched| && IdOf(graph, sched[a]) == k)
    && (forall k :: k in m ==>
          exists a :: 0 <= a < |sched| && m[k] == sched[a] && IdOf(graph, sched[a]) == k
                      && forall b :: a < b < |sched| ==> IdOf(graph, sched[b]) != k)
  }

  /** `{info.node.id: info for info in s}`: later entries overwrite earlier ones with the same id. */
  function IdMap(graph: seq<Node>, s: seq<ScheduledNodeInfo>): map<int, ScheduledNodeInfo>
    requires EntriesOfArena(graph, s)
  {
    if s == [] then map[]
    else
      var last := s[|s| - 1];
      IdMap(graph, s[..|s| - 1])[IdOf(graph, last) := last]
  }

  /** The id map has key `k` exactly when some entry carries id `k`, and then holds the last such entry. */
  lemma {:induction false} IdMapAt(graph: seq<Node>, s: seq<ScheduledNodeInfo>, k: int)
    requires EntriesOfArena(graph, s)
    ensures k in IdMap(graph, s) <==> exists a :: 0 <= a < |s| && IdOf(graph, s[a]) == k
    ensures k in IdMap(graph, s) ==>
      exists a :: 0 <= a < |s| && IdMap(graph, s)[k] == s[a] && IdOf(graph, s[a]) == k
                  && forall b :: a < b < |s| ==> IdOf(graph, s[b]) != k
    decreases |s|
  {
    if s != [] {
      var init, i := s[..|s| - 1], |s| - 1;
      IdMapAt(graph, init, k);
      if IdOf(graph, s[i]) == k {
        assert IdMap(graph, s)[k] == s[i];
      } else if k in IdMap(graph, init) {
        var a :| 0 <= a < |init| && IdMap(graph, init)[k] == init[a] && IdOf(graph, init[a]) == k
                 && forall b :: a < b < |init| ==> IdOf(graph, init[b]) != k;
        assert s[a] == init[a];
        assert forall b :: a < b < |s| ==> IdOf(graph, s[b]) != k by {
          forall b | a < b < |s| ensures IdOf(graph, s[b]) != k {
            if b < i { assert s[b] == init[b]; }
          }
        }
      } else {
        forall a | 0 <= a < |s| ensures IdOf(graph, s[a]) != k {
          if a < i { assert s[a] == init[a]; }
        }
      }
    }
  }

  /** The id map has a key per id of the schedule, holding the last entry with that id. */
  lemma IdMapIsNodeMap(graph: seq<Node>, s: seq<ScheduledNodeInfo>)
    requires EntriesOfArena(graph, s)
    ensures NodeMapOf(graph, s, IdMap(graph, s))
  {
    var m := IdMap(graph, s);
    forall k ensures k in m <==> exists a :: 0 <= a < |s| && IdOf(graph, s[a]) == k {
      IdMapAt(graph, s, k);
    }
    forall k | k in m
      ensures exists a :: 0 <= a < |s| && m[k] == s[a] && IdOf(graph, s[a]) == k
                          && forall b :: a < b < |s| ==> IdOf(graph, s[b]) != k
    {
      IdMapAt(graph, s, k);
    }
    forall k | k in m ensures InfoOk(graph, m[k]) {
      IdMapAt(graph, s, k);
    }
  }

  /** The dictionary comprehension that builds `node_map`. */
  method BuildNodeMap(graph: seq<Node>, sched: seq<ScheduledNodeInfo>) returns (m: map<int, ScheduledNodeInfo>)
    requires EntriesOfArena(graph, sched)
    ensures NodeMapOf(graph, sched, m)
  {
    m := map[];
    var i := 0;
    while i < |sched|
      invariant 0 <= i <= |sched|
      invariant m == IdMap(graph, sched[..i])
    {
      assert sched[..i + 1][..i] == sched[..i];
      m := m[IdOf(graph, sched[i]) := sched[i]];
      i := i + 1;
    }
    assert sched[..i] == sched;
    IdMapIsNodeMap(graph, sched);
  }

  /** `_get_reg_name(node_id)`: `"unknown"` for an id the schedule lacks, else `reg_<op_type><id>`. */
  function GetRegName(graph: seq<Node>, m: map<int, ScheduledNodeInfo>, id: int): RegName
    requires MapOk(graph, m)
  {
    if id !in m then UnknownReg
    else
      var n := graph[m[id].node];
      RegOf(n.opType, n.id)
  }

  /** No two nodes of the arena share an id (true of a fresh build, where `id == index`). */
  predicate IdsDistinct(graph: seq<Node>) {
    forall i, j :: 0 <= i < |graph| && 0 <= j < |graph| && graph[i].id == graph[j].id ==> i == j
  }

  /**
   * Over a map built from the schedule, the register of a scheduled node is
   * `reg_<its category><its id>`, and an id no entry carries reads `unknown`.
   */
  lemma RegNameOfId(graph: seq<Node>, sched: seq<ScheduledNodeInfo>, m: map<int, ScheduledNodeInfo>, k: int)
    requires EntriesOfArena(graph, sched) && IdsDistinct(graph) && NodeMapOf(graph, sched, m)
    ensures GetRegName(graph, m, k) == UnknownReg <==> forall a :: 0 <= a < |sched| ==> IdOf(graph, sched[a]) != k
    ensures forall a :: 0 <= a < |sched| && IdOf(graph, sched[a]) == k ==>
              GetRegName(graph, m, k) == RegOf(graph[sched[a].node].opType, k)
  {
    if k in m {
      var b :| 0 <= b < |sched| && m[k] == sched[b] && IdOf(graph, sched[b]) == k;
      forall a | 0 <= a < |sched| && IdOf(graph, sched[a]) == k
        ensures GetRegName(graph, m, k) == RegOf(graph[sched[a].node].opType, k)
      {
        assert graph[sched[a].node].id == graph[sched[b].node].id;
      }
    }
  }

  /** The text of a register name. */
  function RegString(r: RegName): string {
    match r
    case UnknownReg => "unknown"
    case RegOf(c, id) => "reg_" + UnitName(c, id)
  }

  /** Distinct registers have distinct names, and none is named `unknown`. */
  lemma RegStringInjective(r1: RegName, r2: RegName)
    requires RegString(r1) == RegString(r2)
    ensures r1 == r2
  {
    var s := RegString(r1);
    if r1.RegOf? && r2.RegOf? {
      assert s[4..] == UnitName(r1.opType, r1.id) == UnitName(r2.opType, r2.id);
      UnitNameInjective(r1.opType, r1.id, r2.opType, r2.id);
    }
  }

  // ----- _get_operand_source -----

  /** `operands[pos]`: an identifier node has none (`[None, None]`). */
  function OperandAt(n: Node, pos: nat): (r: Option<nat>)
    ensures r.Some? ==> r.value in Operands(n)
  {
    if n.Identifier? then None else if pos == 0 then n.left else n.right
  }

  /**
   * `_get_operand_source(operand)`: a name leaf is its input port, a constant
   * leaf a literal, an operator node its register, and anything else
   * (`None`) the literal `32'd0`.
   */
  function GetOperandSource(graph: seq<Node>, m: map<int, ScheduledNodeInfo>, x: Option<nat>): Source
    requires x.Some? ==> x.value < |graph|
    requires MapOk(graph, m)
  {
    if x.None? then Lit(IntConst(0))
    else
      match graph[x.value]
      case Identifier(_, NameLeaf(n), _) => Port(n)
      case Identifier(_, ConstLeaf(c), _) => Lit(c)
      case Operator(id, _, _, _, _, _, _) => Reg(GetRegName(graph, m, id))
  }

  /** The source of a leaf of the arena is its name or its literal value. */
  lemma LeafSource(graph: seq<Node>, m: map<int, ScheduledNodeInfo>, x: nat)
    requires x < |graph| && graph[x].Identifier? && MapOk(graph, m)
    ensures graph[x].leaf.NameLeaf? ==> GetOperandSource(graph, m, Some(x)) == Port(graph[x].leaf.name)
    ensures graph[x].leaf.ConstLeaf? ==> GetOperandSource(graph, m, Some(x)) == Lit(graph[x].leaf.value)
  {
  }

  /** No two identifier nodes of the arena are interned under one key (true of a fresh build). */
  predicate KeysDistinct(graph: seq<Node>) {
    forall i, j ::
      (&& 0 <= i < |graph| && 0 <= j < |graph| && graph[i].Identifier? && graph[j].Identifier?
       && KeyOf(graph[i].leaf) == KeyOf(graph[j].leaf)) ==> i == j
  }

  /** Operand `x` is a leaf, or an operator node the schedule records. */
  predicate Fed(graph: seq<Node>, sched: seq<ScheduledNodeInfo>, x: nat) {
    x < |graph| && (graph[x].Identifier? || x in Recorded(sched))
  }

  /**
   * Distinct operand nodes get distinct sources when ids and leaf keys are
   * unique and every operator operand is scheduled: a multiplexer then has one
   * input per distinct operand node.
   */
  lemma SourcesSeparateOperands(graph: seq<Node>, sched: seq<ScheduledNodeInfo>, m: map<int, ScheduledNodeInfo>,
                                x: nat, y: nat)
    requires EntriesOfArena(graph, sched) && NodeMapOf(graph, sched, m)
    requires IdsDistinct(graph) && KeysDistinct(graph)
    requires Fed(graph, sched, x) && Fed(graph, sched, y) && x != y
    ensures GetOperandSource(graph, m, Some(x)) != GetOperandSource(graph, m, Some(y))
  {
    if graph[x].Operator? && graph[y].Operator? {
      var a :| 0 <= a < |sched| && sched[a].node == x;
      var b :| 0 <= b < |sched| && sched[b].node == y;
      RegNameOfId(graph, sched, m, graph[x].id);
      RegNameOfId(graph, sched, m, graph[y].id);
      assert IdOf(graph, sched[a]) == graph[x].id && IdOf(graph, sched[b]) == graph[y].id;
    }
  }

  // ----- _collect_inputs -----

  /** Operand `x` is an identifier node that holds a name, not a constant. */
  predicate NamedLeaf(graph: seq<Node>, x: nat) {
    x < |graph| && graph[x].Identifier? && graph[x].leaf.NameLeaf?
  }

  /** `name` is the name of a name-leaf operand of some entry. */
  ghost predicate IsInputName(graph: seq<Node>, sched: seq<ScheduledNodeInfo>, name: string)
    requires EntriesOfArena(graph, sched)
  {
    exists a, x :: 0 <= a < |sched| && x in Operands(graph[sched[a].node])
                   && NamedLeaf(graph, x) && graph[x].leaf.name == name
  }

  /** The names of the name-leaf operands of one node. */
  function LeafNames(graph: seq<Node>, n: Node): set<string> {
    (if n.Operator? && n.left.Some? && NamedLeaf(graph, n.left.value) then {graph[n.left.value].leaf.name} else {})
    + (if n.Operator? && n.right.Some? && NamedLeaf(graph, n.right.value) then {graph[n.right.value].leaf.name} else {})
  }

  /** The inputs gathered from the entries of `s`, entry by entry. */
  function InputNames(graph: seq<Node>, s: seq<ScheduledNodeInfo>): set<string>
    requires EntriesOfArena(graph, s)
  {
    if s == [] then {} else InputNames(graph, s[..|s| - 1]) + LeafNames(graph, graph[s[|s| - 1].node])
  }

  /** A name is gathered exactly when it is the name of a name-leaf operand of an entry. */
  lemma {:induction false} InputNamesAreInputs(graph: seq<Node>, s: seq<ScheduledNodeInfo>, name: string)
    requires EntriesOfArena(graph, s)
    ensures name in InputNames(graph, s) <==> IsInputName(graph, s, name)
    decreases |s|
  {
    if s != [] {
      var init := s[..|s| - 1];
      var i := |s| - 1;
      var n := graph[s[i].node];
      InputNamesAreInputs(graph, init, name);
      if name in InputNames(graph, init) {
        var a, x :| 0 <= a < |init| && x in Operands(graph[init[a].node]) && NamedLeaf(graph, x) && graph[x].leaf.name == name;
        assert s[a] == init[a];
      } else if name in LeafNames(graph, n) {
        var x := if n.left.Some? && NamedLeaf(graph, n.left.value) && graph[n.left.value].leaf.name == name
                 then n.left.value else n.right.value;
        assert x in Operands(graph[s[i].node]);
      } else {
        forall a, x | 0 <= a < |s| && x in Operands(graph[s[a].node]) && NamedLeaf(graph, x)
          ensures graph[x].leaf.name != name
        {
          if a < i {
            assert s[a] == init[a];
          }
        }
      }
    }
  }

  /** `_collect_inputs`: the names of the operands that are name leaves; constants are not ports. */
  method CollectInputs(graph: seq<Node>, sched: seq<ScheduledNodeInfo>) returns (inputs: set<string>)
    requires EntriesOfArena(graph, sched)
    ensures forall name :: name in inputs <==> IsInputName(graph, sched, name)
  {
    inputs := {};
    var i := 0;
    while i < |sched|
      invariant 0 <= i <= |sched|
      invariant inputs == InputNames(graph, sched[..i])
    {
      assert sched[..i + 1][..i] == sched[..i];
      var n := graph[sched[i].node];
      if n.left.Some? && NamedLeaf(graph, n.left.value) {
        inputs := inputs + {graph[n.left.value].leaf.name};
      }
      if n.right.Some? && NamedLeaf(graph, n.right.value) {
        inputs := inputs + {graph[n.right.value].leaf.name};
      }
      i := i + 1;
    }
    assert sched[..i] == sched;
    forall name ensures name in inputs <==> IsInputName(graph, sched, name) {
      InputNamesAreInputs(graph, sched, name);
    }
  }

  // ----- The resource groups -----

  /** `f"{info.node.op_type}{info.resource_num}"`: the unit an entry runs on. */
  function UnitOf(graph: seq<Node>, info: ScheduledNodeInfo): string
    requires InfoOk(graph, info)
  {
    UnitName(graph[info.node].opType, info.resourceNum)
  }

  /** `UnitOf` as a key function over all entries (entries outside the arena have no unit). */
  function UnitKey(graph: seq<Node>): ScheduledNodeInfo -> string {
    info => if InfoOk(graph, info) then UnitOf(graph, info) else ""
  }

  /** The entries of `s` that run on unit `u`, in their order in `s`. */
  function OnUnit(graph: seq<Node>, s: seq<ScheduledNodeInfo>, u: string): seq<ScheduledNodeInfo> {
    Where(s, UnitKey(graph), u)
  }

  /** An entry is in the group of unit `u` exactly when it is an entry of `s` that runs on `u`. */
  lemma OnUnitMembers(graph: seq<Node>, s: seq<ScheduledNodeInfo>, u: string, x: ScheduledNodeInfo)
    requires EntriesOfArena(graph, s)
    ensures x in OnUnit(graph, s, u) <==> x in s && UnitOf(graph, x) == u
  {
    WhereMembers(s, UnitKey(graph), u, x);
  }

  /** A group is a subsequence of a sorted schedule, so it is sorted by id too. */
  lemma {:induction false} OnUnitSorted(graph: seq<Node>, s: seq<ScheduledNodeInfo>, u: string)
    requires EntriesOfArena(graph, s) && SortedById(graph, s)
    ensures SortedById(graph, OnUnit(graph, s, u))
    decreases |s|
  {
    if s != [] {
      var init := s[..|s| - 1];
      var last := s[|s| - 1];
      OnUnitSorted(graph, init, u);
      var g := OnUnit(graph, init, u);
      forall a | 0 <= a < |g| ensures IdOf(graph, g[a]) <= IdOf(graph, last) {
        OnUnitMembers(graph, init, u, g[a]);
        var b :| 0 <= b < |init| && init[b] == g[a];
      }
    }
  }

  /** `resources`: one key per unit an entry runs on, holding that unit's entries in order. */
  ghost predicate ResourcesOf(graph: seq<Node>, sched: seq<ScheduledNodeInfo>,
                              resources: map<string, seq<ScheduledNodeInfo>>)
    requires EntriesOfArena(graph, sched)
  {
    && (forall u :: u in resources <==> exists a :: 0 <= a < |sched| && UnitOf(graph, sched[a]) == u)
    && (forall u :: u in resources ==> resources[u] == OnUnit(graph, sched, u))
  }

  /** The grouping loop of `__init__`, with `setdefault` creating a unit's list on first use. */
  method GroupResources(graph: seq<Node>, sched: seq<ScheduledNodeInfo>)
    returns (resources: map<string, seq<ScheduledNodeInfo>>)
    requires EntriesOfArena(graph, sched)
    ensures ResourcesOf(graph, sched, resources)
  {
    ghost var key := UnitKey(graph);
    resources := map[];
    var i := 0;
    while i < |sched|
      invariant 0 <= i <= |sched|
      invariant resources == GroupBy(sched[..i], key)
    {
      assert sched[..i + 1][..i] == sched[..i];
      var info := sched[i];
      var name := UnitOf(graph, info);
      assert key(info) == name;
      var group := if name in resources then resources[name] else [];
      resources := resources[name := group + [info]];
      i := i + 1;
    }
    assert sched[..i] == sched;
    GroupByIsResources(graph, sched);
  }

  /** Grouping by `UnitKey` gives the resources dictionary. */
  lemma GroupByIsResources(graph: seq<Node>, sched: seq<ScheduledNodeInfo>)
    requires EntriesOfArena(graph, sched)
    ensures ResourcesOf(graph, sched, GroupBy(sched, UnitKey(graph)))
  {
    var key := UnitKey(graph);
    var g := GroupBy(sched, key);
    GroupByKeys(sched, key);
    GroupByWhere(sched, key);
    forall u ensures u in g <==> exists a :: 0 <= a < |sched| && UnitOf(graph, sched[a]) == u {
      if u in g {
        var a :| 0 <= a < |sched| && key(sched[a]) == u;
        assert UnitOf(graph, sched[a]) == u;
      } else {
        forall a | 0 <= a < |sched| ensures UnitOf(graph, sched[a]) != u {
          assert key(sched[a]) != u;
        }
      }
    }
    forall u | u in g ensures g[u] == OnUnit(graph, sched, u) {
    }
  }

  /**
   * Every entry lies in exactly one group, the one keyed by its unit name, and
   * a unit name determines the category and the unit index.
   */
  lemma EntryInOneGroup(graph: seq<Node>, sched: seq<ScheduledNodeInfo>,
                        resources: map<string, seq<ScheduledNodeInfo>>, a: nat)
    requires EntriesOfArena(graph, sched) && ResourcesOf(graph, sched, resources) && a < |sched|
    ensures UnitOf(graph, sched[a]) in resources && sched[a] in resources[UnitOf(graph, sched[a])]
    ensures forall u :: u in resources && sched[a] in resources[u] ==> u == UnitOf(graph, sched[a])
    ensures forall b :: 0 <= b < |sched| && UnitOf(graph, sched[b]) == UnitOf(graph, sched[a]) ==>
              graph[sched[b].node].opType == graph[sched[a].node].opType && sched[b].resourceNum == sched[a].resourceNum
  {
    OnUnitMembers(graph, sched, UnitOf(graph, sched[a]), sched[a]);
    forall u | u in resources && sched[a] in resources[u] ensures u == UnitOf(graph, sched[a]) {
      OnUnitMembers(graph, sched, u, sched[a]);
    }
    forall b | 0 <= b < |sched| && UnitOf(graph, sched[b]) == UnitOf(graph, sched[a])
      ensures graph[sched[b].node].opType == graph[sched[a].node].opType && sched[b].resourceNum == sched[a].resourceNum
    {
      UnitNameInjective(graph[sched[b].node].opType, sched[b].resourceNum, graph[sched[a].node].opType, sched[a].resourceNum);
    }
  }

  // ----- _build_mux_tables -----

  /** Every group holds entries of the arena. */
  predicate GroupsOk(graph: seq<Node>, resources: map<string, seq<ScheduledNodeInfo>>) {
    forall u :: u in resources ==> EntriesOfArena(graph, resources[u])
  }

  /** The distinct sources that feed operand position `pos` of the entries of one group. */
  function MuxSources(graph: seq<Node>, m: map<int, ScheduledNodeInfo>, group: seq<ScheduledNodeInfo>, pos: nat): set<Source>
    requires RefsInRange(graph) && MapOk(graph, m) && EntriesOfArena(graph, group)
  {
    set a | 0 <= a < |group| && OperandAt(graph[group[a].node], pos).Some?
      :: GetOperandSource(graph, m, OperandAt(graph[group[a].node], pos))
  }

  /** A multiplexer table for `sources`: a distinct selector index in `[0, |sources|)` per source. */
  predicate MuxTable(table: map<Source, nat>, sources: set<Source>) {
    && table.Keys == sources
    && (forall s, t :: s in table && t in table && s != t ==> table[s] != table[t])
    && (forall s :: s in table ==> table[s] < |sources|)
  }

  /** The `sources` set of one unit and position, filled entry by entry; absent operands add nothing. */
  method CollectSources(graph: seq<Node>, m: map<int, ScheduledNodeInfo>, group: seq<ScheduledNodeInfo>, pos: nat)
    returns (sources: set<Source>)
    requires RefsInRange(graph) && MapOk(graph, m) && EntriesOfArena(graph, group)
    ensures forall s :: s in sources <==>
      exists a :: 0 <= a < |group| && OperandAt(graph[group[a].node], pos).Some?
                  && GetOperandSource(graph, m, OperandAt(graph[group[a].node], pos)) == s
  {
    sources := {};
    var i := 0;
    while i < |group|
      invariant 0 <= i <= |group|
      invariant forall s :: s in sources <==>
        exists a :: 0 <= a < i && OperandAt(graph[group[a].node], pos).Some?
                    && GetOperandSource(graph, m, OperandAt(graph[group[a].node], pos)) == s
    {
      var operand := OperandAt(graph[group[i].node], pos);
      if operand.Some? {
        sources := sources + {GetOperandSource(graph, m, operand)};
      }
      i := i + 1;
    }
  }

  /**
   * `for idx, src in enumerate(sources)`: the order in which a Python set is
   * enumerated is not fixed, so each step takes any source not yet numbered.
   */
  method EnumerateSources(sources: set<Source>) returns (table: map<Source, nat>)
    ensures MuxTable(table, sources)
  {
    table := map[];
    var rest := sources;
    var idx := 0;
    while rest != {}
      invariant rest <= sources
      invariant table.Keys == sources - rest
      invariant idx == |sources| - |rest|
      invariant forall s :: s in table ==> table[s] < idx
      invariant forall s, t :: s in table && t in table && s != t ==> table[s] != table[t]
      decreases |rest|
    {
      var src :| src in rest;
      SubsetCard(rest, sources);
      table := table[src := idx];
      rest := rest - {src};
      idx := idx + 1;
    }
  }

  /** The values of a table. */
  function Selectors(table: map<Source, nat>): set<nat> {
    set s | s in table :: table[s]
  }

  lemma {:induction false} SelectorsCard(table: map<Source, nat>)
    requires forall s, t :: s in table && t in table && s != t ==> table[s] != table[t]
    ensures |Selectors(table)| == |table.Keys|
    decreases |table.Keys|
  {
    if table.Keys != {} {
      var s :| s in table;
      var rest := table - {s};
      SelectorsCard(rest);
      forall v ensures v in Selectors(table) <==> v in Selectors(rest) + {table[s]} {
        if v in Selectors(table) {
          var t :| t in table && table[t] == v;
          if t != s { assert t in rest; }
        }
        if v in Selectors(rest) {
          var t :| t in rest && rest[t] == v;
          assert t in table;
        }
      }
      assert table[s] !in Selectors(rest);
      assert Selectors(table) == Selectors(rest) + {table[s]};
      assert table.Keys == rest.Keys + {s};
    }
  }

  /** The indices `0 .. n - 1`. */
  function Range(n: nat): (r: set<nat>)
    ensures |r| == n
    ensures forall i: nat :: i in r <==> i < n
  {
    if n == 0 then {} else Range(n - 1) + {n - 1}
  }

  /**
   * The selector indices of a multiplexer table are exactly `0 .. |sources| - 1`:
   * each index selects exactly one source.
   */
  lemma MuxTableOnto(table: map<Source, nat>, sources: set<Source>)
    requires MuxTable(table, sources)
    ensures forall v: nat :: v in Selectors(table) <==> v < |sources|
  {
    var sel := Selectors(table);
    SelectorsCard(table);
    forall v: nat | v < |sources| ensures v in sel {
      if v !in sel {
        var rest := Range(|sources|) - {v};
        forall w | w in sel ensures w in rest {
          var t :| t in table && table[t] == w;
        }
        SubsetCard(sel, rest);
      }
    }
  }

  /** What reading `mux_tables[res][pos]` gives, an entry never written reading as empty. */
  function TableAt(tables: map<string, map<nat, map<Source, nat>>>, res: string, pos: nat): map<Source, nat> {
    if res in tables && pos in tables[res] then tables[res][pos] else map[]
  }

  /**
   * `mux_tables`: for each unit and operand position (0 and 1), a multiplexer
   * table of the sources feeding it; entries exist only where a source does.
   */
  predicate MuxTablesOf(graph: seq<Node>, m: map<int, ScheduledNodeInfo>,
                        resources: map<string, seq<ScheduledNodeInfo>>,
                        tables: map<string, map<nat, map<Source, nat>>>)
    requires RefsInRange(graph) && MapOk(graph, m) && GroupsOk(graph, resources)
  {
    && (forall res, pos :: res in resources && pos < 2 ==>
          MuxTable(TableAt(tables, res, pos), MuxSources(graph, m, resources[res], pos)))
    && (forall res :: res in tables ==>
          res in resources && forall pos :: pos in tables[res] ==> pos < 2 && tables[res][pos] != map[])
  }

  /** The tables of one unit, by operand position, as `mux_tables[res]` holds them. */
  function RowAt(row: map<nat, map<Source, nat>>, pos: nat): map<Source, nat> {
    if pos in row then row[pos] else map[]
  }

  /** The two iterations `for op_idx in [0, 1]` for one unit; a position is written only if it has a source. */
  method UnitMuxTables(graph: seq<Node>, m: map<int, ScheduledNodeInfo>, group: seq<ScheduledNodeInfo>)
    returns (row: map<nat, map<Source, nat>>)
    requires RefsInRange(graph) && MapOk(graph, m) && EntriesOfArena(graph, group)
    ensures forall pos :: pos < 2 ==> MuxTable(RowAt(row, pos), MuxSources(graph, m, group, pos))
    ensures forall pos :: pos in row ==> pos < 2 && row[pos] != map[]
  {
    row := map[];
    for pos := 0 to 2
      invariant forall q: nat :: q < pos ==> MuxTable(RowAt(row, q), MuxSources(graph, m, group, q))
      invariant forall q :: q in row ==> q < pos && row[q] != map[]
    {
      var sources := CollectSources(graph, m, group, pos);
      assert sources == MuxSources(graph, m, group, pos);
      var table := EnumerateSources(sources);
      if table != map[] {
        row := row[pos := table];
      }
    }
  }

  /** `_build_mux_tables`, with `mux_tables` creating its nested entries on first write. */
  method BuildMuxTables(graph: seq<Node>, m: map<int, ScheduledNodeInfo>,
                        resources: map<string, seq<ScheduledNodeInfo>>)
    returns (tables: map<string, map<nat, map<Source, nat>>>)
    requires RefsInRange(graph) && MapOk(graph, m) && GroupsOk(graph, resources)
    ensures MuxTablesOf(graph, m, resources, tables)
  {
    tables := map[];
    var todo := resources.Keys;
    while todo != {}
      invariant todo <= resources.Keys
      invariant forall res, pos :: res in resources && res !in todo && pos < 2 ==>
        MuxTable(TableAt(tables, res, pos), MuxSources(graph, m, resources[res], pos))
      invariant forall res :: res in tables ==>
        res in resources && res !in todo && forall pos :: pos in tables[res] ==> pos < 2 && tables[res][pos] != map[]
      decreases |todo|
    {
      var res :| res in todo;
      var row := UnitMuxTables(graph, m, resources[res]);
      if row != map[] {
        tables := tables[res := row];
      }
      assert forall pos :: TableAt(tables, res, pos) == RowAt(row, pos);
      todo := todo - {res};
    }
  }

  // ----- generate_datapath: the port list -----

  /** The line declaring the data inputs, or the comment that there are none. */
  function InputsLine(names: seq<string>): PortLine {
    if names == [] then NoDataInputs else DataInputs(names)
  }

  /** The op-select input of unit `u`, as wide as `_get_op_width(u)`. */
  function OpLine(u: string): PortLine {
    if GetOpWidth(u) > 1 then OpBus(u, GetOpWidth(u) - 1) else OpBit(u)
  }

  /** A unit's op-select input is two bits wide for `ALU` and `logic` units and one bit otherwise. */
  lemma UnitOpLine(c: Category, n: int)
    ensures OpLine(UnitName(c, n)) == if c == ALU || c == LOGIC then OpBus(UnitName(c, n), 1) else OpBit(UnitName(c, n))
  {
    UnitOpWidth(c, n);
  }

  /** The selects and the op-select input of each unit, in the order given. */
  method ControlPorts(units: seq<string>) returns (control: seq<PortLine>)
    ensures |control| == 2 * |units|
    ensures forall k :: 0 <= k < |units| ==> control[2 * k] == Selects(units[k]) && control[2 * k + 1] == OpLine(units[k])
  {
    control := [];
    var k := 0;
    while k < |units|
      invariant 0 <= k <= |units|
      invariant |control| == 2 * k
      invariant forall q :: 0 <= q < k ==> control[2 * q] == Selects(units[q]) && control[2 * q + 1] == OpLine(units[q])
    {
      var res := units[k];
      var opWidth := GetOpWidth(res);
      var line := if opWidth > 1 then OpBus(res, opWidth - 1) else OpBit(res);
      control := control + [Selects(res), line];
      k := k + 1;
    }
  }

  /** One register enable per entry, in the order of the entries. */
  method EnablePorts(graph: seq<Node>, m: map<int, ScheduledNodeInfo>, sched: seq<ScheduledNodeInfo>)
    returns (enables: seq<PortLine>)
    requires EntriesOfArena(graph, sched) && MapOk(graph, m)
    ensures |enables| == |sched|
    ensures forall j :: 0 <= j < |sched| ==> enables[j] == Enable(GetRegName(graph, m, IdOf(graph, sched[j])))
  {
    enables := [];
    var j := 0;
    while j < |sched|
      invariant 0 <= j <= |sched|
      invariant |enables| == j
      invariant forall q :: 0 <= q < j ==> enables[q] == Enable(GetRegName(graph, m, IdOf(graph, sched[q])))
    {
      enables := enables + [Enable(GetRegName(graph, m, graph[sched[j].node].id))];
      j := j + 1;
    }
  }

  /** Where each part of a five-part concatenation lands. */
  lemma Layout<T>(h: seq<T>, c: seq<T>, d: T, e: seq<T>, t: seq<T>)
    ensures var s := h + (c + ([d] + (e + t)));
      && |s| == |h| + |c| + 1 + |e| + |t|
      && s[..|h|] == h
      && (forall q :: 0 <= q < |c| ==> s[|h| + q] == c[q])
      && s[|h| + |c|] == d
      && (forall q :: 0 <= q < |e| ==> s[|h| + |c| + 1 + q] == e[q])
      && s[|s| - |t|..] == t
  {
    var s := h + (c + ([d] + (e + t)));
    assert s[|s| - |t|..] == t;
  }

  /**
   * The layout of the `datapath` port list: the module head, clock and reset,
   * the data inputs, then per unit its two selects and its op-select input,
   * then `done_next` and `result_en`, one register enable per entry, and the
   * outputs.
   */
  predicate PortListOf(lines: seq<PortLine>, inputsList: seq<string>, units: seq<string>,
                       graph: seq<Node>, m: map<int, ScheduledNodeInfo>, sched: seq<ScheduledNodeInfo>)
    requires EntriesOfArena(graph, sched) && MapOk(graph, m)
  {
    && |lines| == 9 + 2 * |units| + |sched|
    && lines[..4] == [ModuleHead, ClockReset, InputsLine(inputsList), ControlHead]
    && (forall k :: 0 <= k < |units| ==> lines[4 + 2 * k] == Selects(units[k]) && lines[5 + 2 * k] == OpLine(units[k]))
    && lines[4 + 2 * |units|] == DoneResultEnable
    && (forall j :: 0 <= j < |sched| ==>
          lines[5 + 2 * |units| + j] == Enable(GetRegName(graph, m, IdOf(graph, sched[j]))))
    && lines[|lines| - 4..] == [OutputsHead, ResultOut, DoneOut, HeadEnd]
  }

  /** The port list of the `datapath` module for the given inputs and units, in the order given. */
  method PortList(graph: seq<Node>, m: map<int, ScheduledNodeInfo>, inputsList: seq<string>, units: seq<string>,
                  sched: seq<ScheduledNodeInfo>) returns (lines: seq<PortLine>)
    requires EntriesOfArena(graph, sched) && MapOk(graph, m)
    ensures PortListOf(lines, inputsList, units, graph, m, sched)
  {
    var head := [ModuleHead, ClockReset, InputsLine(inputsList), ControlHead];
    var control := ControlPorts(units);
    var enables := EnablePorts(graph, m, sched);
    var tail := [OutputsHead, ResultOut, DoneOut, HeadEnd];
    lines := head + (control + ([DoneResultEnable] + (enables + tail)));
    Layout(head, control, DoneResultEnable, enables, tail);
  }

  /** What `__init__` leaves in the generator's fields. */
  ghost predicate GeneratorState(graph: seq<Node>, scheduleInfo: seq<ScheduledNodeInfo>,
                                 nodeMap: map<int, ScheduledNodeInfo>, inputs: set<string>,
                                 resources: map<string, seq<ScheduledNodeInfo>>,
                                 muxTables: map<string, map<nat, map<Source, nat>>>)
  {
    && ScheduleOk(graph, scheduleInfo)
    && SortedById(graph, scheduleInfo)
    && NodeMapOf(graph, scheduleInfo, nodeMap)
    && (forall name :: name in inputs <==> IsInputName(graph, scheduleInfo, name))
    && ResourcesOf(graph, scheduleInfo, resources)
    && GroupsOk(graph, resources)
    && MuxTablesOf(graph, nodeMap, resources, muxTables)
  }

  /** Every group of a grouping holds entries of the arena. */
  lemma ResourcesGroupsOk(graph: seq<Node>, sched: seq<ScheduledNodeInfo>, res: map<string, seq<ScheduledNodeInfo>>)
    requires EntriesOfArena(graph, sched) && ResourcesOf(graph, sched, res)
    ensures GroupsOk(graph, res)
  {
    forall u | u in res ensures EntriesOfArena(graph, res[u]) {
      forall a | 0 <= a < |res[u]| ensures InfoOk(graph, res[u][a]) {
        assert res[u][a] in res[u];
        OnUnitMembers(graph, sched, u, res[u][a]);
      }
    }
  }

  class VerilogGenerator {
    var graph: seq<Node>
    var scheduleInfo: seq<ScheduledNodeInfo>
    var nodeMap: map<int, ScheduledNodeInfo>
    var inputs: set<string>
    var resources: map<string, seq<ScheduledNodeInfo>>
    var muxTables: map<string, map<nat, map<Source, nat>>>

    ghost predicate Valid()
      reads this
    {
      GeneratorState(graph, scheduleInfo, nodeMap, inputs, resources, muxTables)
    }

    /** `__init__`: sort, index by id, collect inputs, group by unit, build the multiplexer tables. */
    constructor (graph: seq<Node>, scheduleInfo: seq<ScheduledNodeInfo>)
      requires ScheduleOk(graph, scheduleInfo)
      ensures Valid()
      ensures this.graph == graph && this.scheduleInfo == SortById(graph, scheduleInfo)
    {
      var sorted := SortById(graph, scheduleInfo);
      SortKeepsEntries(graph, scheduleInfo);
      var m := BuildNodeMap(graph, sorted);
      var ins := CollectInputs(graph, sorted);
      var res := GroupResources(graph, sorted);
      ResourcesGroupsOk(graph, sorted, res);
      var tables := BuildMuxTables(graph, m, res);
      assert GeneratorState(graph, sorted, m, ins, res, tables);
      this.graph := graph;
      this.scheduleInfo := sorted;
      nodeMap := m;
      inputs := ins;
      resources := res;
      muxTables := tables;
    }

    /**
     * The port list `generate_datapath` emits: clock and reset, the data inputs
     * in sorted order, per unit in sorted order its two selects and its op
     * input, then one register enable per entry in id order.
     */
    method GenerateDatapath() returns (lines: seq<PortLine>)
      requires ScheduleOk(graph, scheduleInfo) && MapOk(graph, nodeMap)
      ensures PortListOf(lines, SortedSet(inputs), SortedSet(resources.Keys), graph, nodeMap, scheduleInfo)
    {
      var inputsList := SortStrings(inputs);
      var units := SortStrings(resources.Keys);
      lines := PortList(graph, nodeMap, inputsList, units, scheduleInfo);
    }
  }
}

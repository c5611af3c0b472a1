/**
 * `src/scheduler.py`: the `ScheduledNodeInfo` record, the resource pool, the
 * stable sort by node id, and the list-scheduling loop that the `ListScheduler`
 * doc-comments describe (candidates, selection per cycle, recording).
 */
module Scheduler {
  import opened Wrappers
  import opened Syntax
  import opened Categories
  import opened Graph
  import opened SetLemmas

  /** One schedule entry: an operator node (its arena index), its cycle and the index of its unit. */
  datatype ScheduledNodeInfo = ScheduledNodeInfo(node: nat, scheduledTime: int, resourceNum: int)

  /** `info.node.id`, the sort key (-1 for an entry outside the arena). */
  function IdOf(graph: seq<Node>, info: ScheduledNodeInfo): int {
    if info.node < |graph| then graph[info.node].id else -1
  }

  predicate SortedById(graph: seq<Node>, s: seq<ScheduledNodeInfo>) {
    forall i, j :: 0 <= i < j < |s| ==> IdOf(graph, s[i]) <= IdOf(graph, s[j])
  }

  /** Places `x` before the first entry whose id is at least its own. */
  function InsertById(graph: seq<Node>, x: ScheduledNodeInfo, s: seq<ScheduledNodeInfo>): (r: seq<ScheduledNodeInfo>)
    ensures multiset(r) == multiset{x} + multiset(s)
  {
    if s == [] || IdOf(graph, x) <= IdOf(graph, s[0]) then [x] + s
    else
      assert s == [s[0]] + s[1..];
      [s[0]] + InsertById(graph, x, s[1..])
  }

  lemma {:induction false} InsertSorted(graph: seq<Node>, x: ScheduledNodeInfo, s: seq<ScheduledNodeInfo>)
    requires SortedById(graph, s)
    ensures SortedById(graph, InsertById(graph, x, s))
  {
    if s != [] && IdOf(graph, x) > IdOf(graph, s[0]) {
      var t := InsertById(graph, x, s[1..]);
      InsertSorted(graph, x, s[1..]);
      forall j | 0 <= j < |t| ensures IdOf(graph, s[0]) <= IdOf(graph, t[j]) {
        assert t[j] in multiset(t);
        if t[j] != x {
          assert t[j] in multiset(s[1..]);
          var m :| 0 <= m < |s[1..]| && s[1..][m] == t[j];
          assert s[1..][m] == s[m + 1];
        }
      }
      assert InsertById(graph, x, s) == [s[0]] + t;
    }
  }

  /** `sorted(entries, key=lambda info: info.node.id)`, which is stable. */
  function SortById(graph: seq<Node>, s: seq<ScheduledNodeInfo>): (r: seq<ScheduledNodeInfo>)
    ensures SortedById(graph, r)
    ensures multiset(r) == multiset(s)
  {
    if s == [] then []
    else
      assert s == [s[0]] + s[1..];
      var t := SortById(graph, s[1..]);
      InsertSorted(graph, s[0], t);
      InsertById(graph, s[0], t)
  }

  /** The entries of `s` whose node has id `k`, in their order in `s`. */
  function WithId(graph: seq<Node>, s: seq<ScheduledNodeInfo>, k: int): seq<ScheduledNodeInfo> {
    if s == [] then []
    else (if IdOf(graph, s[0]) == k then [s[0]] else []) + WithId(graph, s[1..], k)
  }

  /** The entries with id `k` of a non-empty sequence: its head if that has id `k`, then those of its tail. */
  lemma WithIdCons(graph: seq<Node>, y: ScheduledNodeInfo, t: seq<ScheduledNodeInfo>, k: int)
    ensures WithId(graph, [y] + t, k) == (if IdOf(graph, y) == k then [y] else []) + WithId(graph, t, k)
  {
    assert ([y] + t)[0] == y && ([y] + t)[1..] == t;
  }

  /** Two prefixes of which one is empty can be swapped. */
  lemma SwapEmpty<T>(a: seq<T>, b: seq<T>, w: seq<T>)
    requires a == [] || b == []
    ensures a + (b + w) == b + (a + w)
  {
    if a == [] {
      assert [] + (b + w) == b + ([] + w);
    } else {
      assert a + ([] + w) == [] + (a + w);
    }
  }

  lemma {:induction false} InsertWithId(graph: seq<Node>, x: ScheduledNodeInfo, s: seq<ScheduledNodeInfo>, k: int)
    ensures WithId(graph, InsertById(graph, x, s), k)
         == (if IdOf(graph, x) == k then [x] else []) + WithId(graph, s, k)
  {
    if s != [] && IdOf(graph, x) > IdOf(graph, s[0]) {
      var t := InsertById(graph, x, s[1..]);
      assert InsertById(graph, x, s) == [s[0]] + t;
      assert s == [s[0]] + s[1..];
      InsertWithId(graph, x, s[1..], k);
      WithIdCons(graph, s[0], t, k);
      WithIdCons(graph, s[0], s[1..], k);
      // the ids differ, so at most one of the two entries has id `k`
      SwapEmpty(if IdOf(graph, s[0]) == k then [s[0]] else [],
                if IdOf(graph, x) == k then [x] else [], WithId(graph, s[1..], k));
    } else {
      assert InsertById(graph, x, s) == [x] + s;
      WithIdCons(graph, x, s, k);
    }
  }

  /** Entries with equal ids keep their recording order: the sort is stable. */
  lemma {:induction false} SortByIdStable(graph: seq<Node>, s: seq<ScheduledNodeInfo>, k: int)
    ensures WithId(graph, SortById(graph, s), k) == WithId(graph, s, k)
  {
    if s != [] {
      SortByIdStable(graph, s[1..], k);
      InsertWithId(graph, s[0], SortById(graph, s[1..]), k);
    }
  }

  /** Number of units of category `c` in a pool; a category the map lacks, or gives a count below 1, has none. */
  function Units(pool: map<Category, int>, c: Category): nat {
    if c in pool && pool[c] > 0 then pool[c] else 0
  }

  /** `{op: 1 for op in OP_TYPES}` with the `OP_TYPES` of `src/dfg_creator.py`. */
  function DefaultPool(): map<Category, int> {
    map c | c in OpTypes(ConstantSharing) :: 1
  }

  /**
   * The default pool has one unit of every category `OP_TYPES` lists, and so of
   * every category the table of `src/dfg_creator.py` produces; the `unary` and
   * `cmp` categories of `src/1.py` get none.
   */
  lemma DefaultPoolUnits(op: Operator)
    ensures forall c :: Units(DefaultPool(), c) == (if c in OpTypes(ConstantSharing) then 1 else 0)
    ensures OpMap(ConstantSharing, op).Some? ==> Units(DefaultPool(), OpMap(ConstantSharing, op).value) == 1
    ensures Units(DefaultPool(), UNARY) == 0 && Units(DefaultPool(), CMP) == 0
  {
  }

  /** The category of node `n`, if it is an operator node of the arena. */
  function Kind(graph: seq<Node>, n: nat): Option<Category> {
    if n < |graph| && graph[n].Operator? then Some(graph[n].opType) else None
  }

  function OperatorNodes(graph: seq<Node>): set<nat> {
    set i | 0 <= i < |graph| && graph[i].Operator?
  }

  /** The nodes the entries record. */
  function Recorded(infos: seq<ScheduledNodeInfo>): set<nat> {
    set k | 0 <= k < |infos| :: infos[k].node
  }

  function Elems(s: seq<nat>): set<nat> {
    set k | 0 <= k < |s| :: s[k]
  }

  predicate Distinct(s: seq<nat>) {
    forall a, b :: 0 <= a < b < |s| ==> s[a] != s[b]
  }

  /** The number of nodes in `s` whose kind is `kind`. */
  function CountKind(graph: seq<Node>, s: seq<nat>, kind: Option<Category>): nat {
    if s == [] then 0
    else CountKind(graph, s[..|s| - 1], kind) + (if Kind(graph, s[|s| - 1]) == kind then 1 else 0)
  }

  /** Operand `x` can be read: an identifier node, or an operator node already scheduled. */
  predicate Available(graph: seq<Node>, done: set<nat>, x: nat) {
    x < |graph| && (graph[x].Identifier? || x in done)
  }

  /** Node `i` is ready: an unscheduled operator node all of whose operands can be read. */
  predicate IsCandidate(graph: seq<Node>, done: set<nat>, i: nat) {
    && i < |graph| && graph[i].Operator? && i !in done
    && forall x :: x in Operands(graph[i]) ==> Available(graph, done, x)
  }

  // ----- What a schedule promises -----

  predicate EntryOk(graph: seq<Node>, pool: map<Category, int>, e: ScheduledNodeInfo) {
    && e.node < |graph| && graph[e.node].Operator?
    && e.scheduledTime >= 1
    && 0 <= e.resourceNum < Units(pool, graph[e.node].opType)
  }

  /** Every entry is an operator node at a cycle from 1, on a unit its category has. */
  predicate EntriesOk(graph: seq<Node>, pool: map<Category, int>, infos: seq<ScheduledNodeInfo>) {
    forall a :: 0 <= a < |infos| ==> EntryOk(graph, pool, infos[a])
  }

  /** No node is recorded twice. */
  predicate OnceEach(infos: seq<ScheduledNodeInfo>) {
    forall a, b :: 0 <= a < b < |infos| ==> infos[a].node != infos[b].node
  }

  /** A node runs in a later cycle than every recorded operand. */
  predicate Precedence(graph: seq<Node>, infos: seq<ScheduledNodeInfo>) {
    forall a, b ::
      (0 <= a < |infos| && 0 <= b < |infos| && infos[a].node < |graph|
       && infos[b].node in Operands(graph[infos[a].node])) ==> infos[b].scheduledTime < infos[a].scheduledTime
  }

  /** Every operand of a recorded node is an identifier or a recorded node. */
  predicate OperandsReady(graph: seq<Node>, infos: seq<ScheduledNodeInfo>) {
    forall a, x :: 0 <= a < |infos| && infos[a].node < |graph| && x in Operands(graph[infos[a].node]) ==>
      Available(graph, Recorded(infos), x)
  }

  /** Two entries of one cycle on the same unit index are of different categories. */
  predicate NoClash(graph: seq<Node>, infos: seq<ScheduledNodeInfo>) {
    forall a, b ::
      (0 <= a < b < |infos| && infos[a].scheduledTime == infos[b].scheduledTime
       && infos[a].resourceNum == infos[b].resourceNum) ==> Kind(graph, infos[a].node) != Kind(graph, infos[b].node)
  }

  /** The loop's invariant before cycle `t`: a valid schedule of cycles `1 .. t - 1`. */
  predicate PartialSchedule(graph: seq<Node>, pool: map<Category, int>, infos: seq<ScheduledNodeInfo>, t: int) {
    && t >= 1
    && EntriesOk(graph, pool, infos)
    && OnceEach(infos)
    && Precedence(graph, infos)
    && OperandsReady(graph, infos)
    && NoClash(graph, infos)
    && (forall a :: 0 <= a < |infos| ==> infos[a].scheduledTime < t)
    && Recorded(infos) <= OperatorNodes(graph)
    && t - 1 <= |Recorded(infos)|
  }

  /**
   * The entries one cycle records: the selected nodes at cycle `t`, each on the
   * next free unit of its category (0, 1, ... in selection order).
   */
  function CycleRecords(graph: seq<Node>, sel: seq<nat>, t: int): (r: seq<ScheduledNodeInfo>)
    ensures |r| == |sel|
  {
    if sel == [] then []
    else
      var last := sel[|sel| - 1];
      var before := sel[..|sel| - 1];
      CycleRecords(graph, before, t) + [ScheduledNodeInfo(last, t, CountKind(graph, before, Kind(graph, last)))]
  }

  lemma {:induction false} CycleRecordsAt(graph: seq<Node>, sel: seq<nat>, t: int)
    ensures forall k :: 0 <= k < |sel| ==>
      CycleRecords(graph, sel, t)[k] == ScheduledNodeInfo(sel[k], t, CountKind(graph, sel[..k], Kind(graph, sel[k])))
  {
    if sel != [] {
      var before := sel[..|sel| - 1];
      CycleRecordsAt(graph, before, t);
      forall k | 0 <= k < |before| ensures before[..k] == sel[..k] { }
    }
  }

  lemma {:induction false} CountPrefix(graph: seq<Node>, s: seq<nat>, n: nat, kind: Option<Category>)
    requires n <= |s|
    ensures CountKind(graph, s[..n], kind) <= CountKind(graph, s, kind)
    decreases |s|
  {
    if n < |s| {
      CountPrefix(graph, s[..|s| - 1], n, kind);
      assert s[..|s| - 1][..n] == s[..n];
    } else {
      assert s[..n] == s;
    }
  }

  lemma CountStep(graph: seq<Node>, s: seq<nat>, k: nat, kind: Option<Category>)
    requires k < |s|
    ensures CountKind(graph, s[..k + 1], kind) == CountKind(graph, s[..k], kind) + (if Kind(graph, s[k]) == kind then 1 else 0)
  {
    assert s[..k + 1][..k] == s[..k];
  }

  /** The unit index given to the `k`-th selected node is below its category's unit count. */
  lemma PositionBound(graph: seq<Node>, pool: map<Category, int>, sel: seq<nat>, k: nat)
    requires k < |sel| && Kind(graph, sel[k]).Some?
    requires forall c :: CountKind(graph, sel, Some(c)) <= Units(pool, c)
    ensures CountKind(graph, sel[..k], Kind(graph, sel[k])) < Units(pool, Kind(graph, sel[k]).value)
  {
    CountStep(graph, sel, k, Kind(graph, sel[k]));
    CountPrefix(graph, sel, k + 1, Kind(graph, sel[k]));
  }

  /** Two selected nodes of one category get different unit indices. */
  lemma PositionsDistinct(graph: seq<Node>, sel: seq<nat>, a: nat, b: nat)
    requires a < b < |sel| && Kind(graph, sel[a]) == Kind(graph, sel[b])
    ensures CountKind(graph, sel[..a], Kind(graph, sel[a])) < CountKind(graph, sel[..b], Kind(graph, sel[b]))
  {
    var kind := Kind(graph, sel[a]);
    CountStep(graph, sel, a, kind);
    CountPrefix(graph, sel[..b], a + 1, kind);
    assert sel[..b][..a + 1] == sel[..a + 1];
  }

  lemma RecordedAppend(infos: seq<ScheduledNodeInfo>, more: seq<ScheduledNodeInfo>)
    ensures Recorded(infos + more) == Recorded(infos) + Recorded(more)
  {
    var n := infos + more;
    forall x | x in Recorded(more) ensures x in Recorded(n) {
      var k :| 0 <= k < |more| && more[k].node == x;
      assert n[|infos| + k].node == x;
    }
    forall x | x in Recorded(infos) ensures x in Recorded(n) {
      var k :| 0 <= k < |infos| && infos[k].node == x;
      assert n[k].node == x;
    }
    forall x | x in Recorded(n) ensures x in Recorded(infos) + Recorded(more) {
      var k :| 0 <= k < |n| && n[k].node == x;
      if k >= |infos| { assert more[k - |infos|].node == x; }
    }
  }

  /** What the selection of one cycle promises. */
  predicate Selection(graph: seq<Node>, pool: map<Category, int>, done: set<nat>, sel: seq<nat>) {
    && |sel| > 0
    && Distinct(sel)
    && (forall k :: 0 <= k < |sel| ==> IsCandidate(graph, done, sel[k]))
    && (forall c :: CountKind(graph, sel, Some(c)) <= Units(pool, c))
  }

  /** `n` is `infos` followed by the entries `CycleRecords` makes for `sel` at cycle `t`. */
  predicate CycleShape(graph: seq<Node>, infos: seq<ScheduledNodeInfo>, t: int, sel: seq<nat>, n: seq<ScheduledNodeInfo>) {
    && |n| == |infos| + |sel|
    && (forall a :: 0 <= a < |infos| ==> n[a] == infos[a])
    && (forall a :: |infos| <= a < |n| ==>
          n[a] == ScheduledNodeInfo(sel[a - |infos|], t, CountKind(graph, sel[..a - |infos|], Kind(graph, sel[a - |infos|]))))
  }

  lemma CycleShapeOf(graph: seq<Node>, infos: seq<ScheduledNodeInfo>, t: int, sel: seq<nat>)
    ensures CycleShape(graph, infos, t, sel, infos + CycleRecords(graph, sel, t))
    ensures Recorded(infos + CycleRecords(graph, sel, t)) == Recorded(infos) + Elems(sel)
  {
    var r := CycleRecords(graph, sel, t);
    CycleRecordsAt(graph, sel, t);
    forall x | x in Elems(sel) ensures x in Recorded(r) {
      var k :| 0 <= k < |sel| && sel[k] == x;
      assert r[k].node == x;
    }
    RecordedAppend(infos, r);
  }

  /**
   * One cycle: recording a selection of ready nodes at cycle `t` extends a valid
   * schedule of the earlier cycles to a valid schedule of cycles `1 .. t`.
   */
  lemma CycleStep(graph: seq<Node>, pool: map<Category, int>, infos: seq<ScheduledNodeInfo>, t: int, sel: seq<nat>)
    requires PartialSchedule(graph, pool, infos, t)
    requires Selection(graph, pool, Recorded(infos), sel)
    ensures PartialSchedule(graph, pool, infos + CycleRecords(graph, sel, t), t + 1)
    ensures Recorded(infos + CycleRecords(graph, sel, t)) == Recorded(infos) + Elems(sel)
  {
    var n := infos + CycleRecords(graph, sel, t);
    CycleShapeOf(graph, infos, t, sel);
    CycleEntries(graph, pool, infos, t, sel, n);
    CycleOrder(graph, pool, infos, t, sel, n);
    CycleNoClash(graph, pool, infos, t, sel, n);
    CycleGrows(graph, infos, sel);
  }

  /** The selected nodes are new operator nodes, so the recorded set grows. */
  lemma CycleGrows(graph: seq<Node>, infos: seq<ScheduledNodeInfo>, sel: seq<nat>)
    requires |sel| > 0 && forall k :: 0 <= k < |sel| ==> IsCandidate(graph, Recorded(infos), sel[k])
    ensures Elems(sel) <= OperatorNodes(graph) - Recorded(infos)
    ensures |Recorded(infos)| < |Recorded(infos) + Elems(sel)|
  {
    forall x | x in Elems(sel) ensures x in OperatorNodes(graph) - Recorded(infos) {
      var k :| 0 <= k < |sel| && sel[k] == x;
      assert IsCandidate(graph, Recorded(infos), sel[k]);
    }
    assert sel[0] in Elems(sel);
    ProperSubsetCard(Recorded(infos), Recorded(infos) + Elems(sel));
  }

  /** The new entries are on valid units, and no node is recorded twice. */
  lemma CycleEntries(graph: seq<Node>, pool: map<Category, int>, infos: seq<ScheduledNodeInfo>, t: int,
                     sel: seq<nat>, n: seq<ScheduledNodeInfo>)
    requires PartialSchedule(graph, pool, infos, t)
    requires Selection(graph, pool, Recorded(infos), sel)
    requires CycleShape(graph, infos, t, sel, n)
    ensures EntriesOk(graph, pool, n) && OnceEach(n)
  {
    forall a | 0 <= a < |n| ensures EntryOk(graph, pool, n[a]) {
      if a < |infos| {
        assert n[a] == infos[a];
      } else {
        var k := a - |infos|;
        assert IsCandidate(graph, Recorded(infos), sel[k]);
        PositionBound(graph, pool, sel, k);
      }
    }
    forall a, b | 0 <= a < b < |n| ensures n[a].node != n[b].node {
      if b >= |infos| {
        var kb := b - |infos|;
        assert IsCandidate(graph, Recorded(infos), sel[kb]);
        if a < |infos| {
          assert n[a] == infos[a];
          assert infos[a].node in Recorded(infos);
        }
      } else {
        assert n[a] == infos[a] && n[b] == infos[b];
      }
    }
  }

  /** The new entries come after their operands, whose results are all available. */
  lemma CycleOrder(graph: seq<Node>, pool: map<Category, int>, infos: seq<ScheduledNodeInfo>, t: int,
                   sel: seq<nat>, n: seq<ScheduledNodeInfo>)
    requires PartialSchedule(graph, pool, infos, t)
    requires Selection(graph, pool, Recorded(infos), sel)
    requires CycleShape(graph, infos, t, sel, n)
    requires Recorded(infos) <= Recorded(n)
    ensures Precedence(graph, n) && OperandsReady(graph, n)
  {
    // Operands of every entry could already be read before this cycle.
    forall a, x | 0 <= a < |n| && n[a].node < |graph| && x in Operands(graph[n[a].node])
      ensures Available(graph, Recorded(infos), x)
    {
      if a < |infos| {
        assert n[a] == infos[a];
      } else {
        assert IsCandidate(graph, Recorded(infos), sel[a - |infos|]);
      }
    }
    // The entries of this cycle are operator nodes that were not recorded before.
    forall k | |infos| <= k < |n| ensures !Available(graph, Recorded(infos), n[k].node) {
      assert IsCandidate(graph, Recorded(infos), sel[k - |infos|]);
    }
    forall a, b | 0 <= a < |n| && 0 <= b < |n| && n[a].node < |graph| && n[b].node in Operands(graph[n[a].node])
      ensures n[b].scheduledTime < n[a].scheduledTime
    {
      assert b < |infos|;
      assert n[b] == infos[b];
      if a < |infos| { assert n[a] == infos[a]; }
    }
    forall a, x | 0 <= a < |n| && n[a].node < |graph| && x in Operands(graph[n[a].node])
      ensures Available(graph, Recorded(n), x)
    {
      assert Available(graph, Recorded(infos), x);
    }
  }

  /** Within the new cycle, nodes of one category get different units. */
  lemma CycleNoClash(graph: seq<Node>, pool: map<Category, int>, infos: seq<ScheduledNodeInfo>, t: int,
                     sel: seq<nat>, n: seq<ScheduledNodeInfo>)
    requires PartialSchedule(graph, pool, infos, t)
    requires CycleShape(graph, infos, t, sel, n)
    ensures NoClash(graph, n)
    ensures forall a :: 0 <= a < |n| ==> n[a].scheduledTime < t + 1
  {
    forall a | 0 <= a < |n| ensures n[a].scheduledTime <= t && (a < |infos| <==> n[a].scheduledTime < t) {
      if a < |infos| { assert n[a] == infos[a]; }
    }
    forall a, b | 0 <= a < b < |n| && n[a].scheduledTime == n[b].scheduledTime && n[a].resourceNum == n[b].resourceNum
      ensures Kind(graph, n[a].node) != Kind(graph, n[b].node)
    {
      if b < |infos| {
        assert n[a] == infos[a] && n[b] == infos[b];
      } else {
        assert a >= |infos|;
        var ka, kb := a - |infos|, b - |infos|;
        if Kind(graph, sel[ka]) == Kind(graph, sel[kb]) {
          PositionsDistinct(graph, sel, ka, kb);
        }
      }
    }
  }

  /**
   * While some operator node is unscheduled, one is ready when every operand
   * comes earlier in the arena: the unscheduled operator of least index.
   */
  lemma {:induction false} CandidateExists(graph: seq<Node>, done: set<nat>, i: nat)
    requires OperandsBefore(graph) && done <= OperatorNodes(graph)
    requires i in OperatorNodes(graph) - done
    ensures exists j :: IsCandidate(graph, done, j)
    decreases i
  {
    if IsCandidate(graph, done, i) {
    } else {
      var x :| x in Operands(graph[i]) && !Available(graph, done, x);
      CandidateExists(graph, done, x);
    }
  }

  /** The entries of cycle `t` whose node is of category `c`, as positions in `infos`. */
  function CycleGroup(graph: seq<Node>, infos: seq<ScheduledNodeInfo>, t: int, c: Category): set<nat> {
    set a | 0 <= a < |infos| && infos[a].scheduledTime == t && Kind(graph, infos[a].node) == Some(c)
  }

  /** The unit indices the entries at positions `group` use. */
  function UnitsOf(infos: seq<ScheduledNodeInfo>, group: set<nat>): set<int>
    requires forall a :: a in group ==> a < |infos|
  {
    set a | a in group :: infos[a].resourceNum
  }

  /** In any cycle, a category runs no more operations than it has units. */
  lemma CycleLoad(graph: seq<Node>, pool: map<Category, int>, infos: seq<ScheduledNodeInfo>, t: int, c: Category)
    requires EntriesOk(graph, pool, infos) && NoClash(graph, infos)
    ensures |CycleGroup(graph, infos, t, c)| <= Units(pool, c)
  {
    var group := CycleGroup(graph, infos, t, c);
    InjectiveUnits(graph, infos, t, c, group);
    forall x | x in UnitsOf(infos, group) ensures 0 <= x < Units(pool, c) {
      var a :| a in group && infos[a].resourceNum == x;
      assert EntryOk(graph, pool, infos[a]);
    }
    RangeCard(UnitsOf(infos, group), Units(pool, c));
  }

  lemma {:induction false} InjectiveUnits(graph: seq<Node>, infos: seq<ScheduledNodeInfo>, t: int, c: Category, group: set<nat>)
    requires NoClash(graph, infos)
    requires forall a :: a in group ==>
      a < |infos| && infos[a].scheduledTime == t && Kind(graph, infos[a].node) == Some(c)
    ensures |UnitsOf(infos, group)| == |group|
    decreases |group|
  {
    if group != {} {
      var a :| a in group;
      var rest := group - {a};
      InjectiveUnits(graph, infos, t, c, rest);
      assert UnitsOf(infos, group) == UnitsOf(infos, rest) + {infos[a].resourceNum};
      forall b | b in rest ensures infos[b].resourceNum != infos[a].resourceNum { }
    }
  }

  /** While some operator node is unscheduled, one is ready if every operand comes earlier in the arena. */
  lemma ReadyWhenOrdered(graph: seq<Node>, done: set<nat>)
    requires done <= OperatorNodes(graph) && done != OperatorNodes(graph)
    ensures OperandsBefore(graph) ==> exists i :: IsCandidate(graph, done, i)
  {
    if OperandsBefore(graph) {
      SomeRemaining(OperatorNodes(graph), done);
      var i :| i in OperatorNodes(graph) - done;
      CandidateExists(graph, done, i);
    }
  }

  lemma SomeRemaining(ops: set<nat>, done: set<nat>)
    requires done <= ops && done != ops
    ensures exists i :: i in ops - done
  {
    assert ops == done + (ops - done);
  }

  lemma RemainingShrinks(ops: set<nat>, done: set<nat>, more: set<nat>)
    requires more <= ops - done && more != {}
    ensures |ops - (done + more)| < |ops - done|
  {
    var x :| x in more;
    ProperSubsetCard(ops - (done + more), ops - done);
  }

  /** Every operand comes earlier in the arena, and every operator node's category has a unit. */
  predicate Schedulable(graph: seq<Node>, pool: map<Category, int>) {
    && OperandsBefore(graph)
    && forall i :: i in OperatorNodes(graph) ==> Units(pool, graph[i].opType) >= 1
  }

  datatype ScheduleError =
    | NoCandidates  // operator nodes remain but none is ready: a cycle or an operand outside the arena
    | Stuck         // ready nodes exist but the pool has no unit of any of their categories

  /** `ListScheduler`, over the arena that holds the graph rooted at `root`. */
  class ListScheduler {
    var graph: seq<Node>
    var root: Option<nat>
    var numofResources: map<Category, int>
    var scheduledNodesInfo: seq<ScheduledNodeInfo>

    /** A missing resource map means one unit of every category of `OP_TYPES`. */
    constructor (graph: seq<Node>, root: Option<nat>, numofResources: Option<map<Category, int>>)
      ensures this.graph == graph && this.root == root
      ensures this.numofResources == if numofResources.None? then DefaultPool() else numofResources.value
      ensures scheduledNodesInfo == []
    {
      this.graph := graph;
      this.root := root;
      this.numofResources := if numofResources.None? then DefaultPool() else numofResources.value;
      scheduledNodesInfo := [];
    }

    /** Appends one entry; earlier entries and the other fields are unchanged. */
    method RecordScheduledNode(node: nat, scheduledTime: int, resourceNum: int)
      modifies this
      ensures scheduledNodesInfo == old(scheduledNodesInfo) + [ScheduledNodeInfo(node, scheduledTime, resourceNum)]
      ensures graph == old(graph) && root == old(root) && numofResources == old(numofResources)
    {
      scheduledNodesInfo := scheduledNodesInfo + [ScheduledNodeInfo(node, scheduledTime, resourceNum)];
    }

    /** The entries sorted by node id, stably; the stored list is left as it is. */
    function GetSchedulingInfo(): (r: seq<ScheduledNodeInfo>)
      reads this
      ensures SortedById(graph, r)
      ensures multiset(r) == multiset(scheduledNodesInfo)
    {
      SortById(graph, scheduledNodesInfo)
    }

    /** The nodes ready now; see `IsCandidate`. */
    function FindCandidateNodes(): (r: set<nat>)
      reads this
      ensures forall i :: i in r <==> IsCandidate(graph, Recorded(scheduledNodesInfo), i)
    {
      set i | 0 <= i < |graph| && IsCandidate(graph, Recorded(scheduledNodesInfo), i)
    }

    /**
     * Takes frontier nodes, in any order, while their category has a free unit
     * in this cycle: a selection that fits the pool and leaves out a node only
     * when all units of its category are taken.
     */
    method SelectFromFrontier(frontier: set<nat>) returns (sel: seq<nat>)
      requires forall i :: i in frontier ==> i < |graph| && graph[i].Operator?
      ensures Distinct(sel) && forall k :: 0 <= k < |sel| ==> sel[k] in frontier
      ensures forall c :: CountKind(graph, sel, Some(c)) <= Units(numofResources, c)
      ensures forall i :: i in frontier && i !in Elems(sel) ==>
        CountKind(graph, sel, Some(graph[i].opType)) >= Units(numofResources, graph[i].opType)
    {
      sel := [];
      var rest := frontier;
      while rest != {}
        invariant rest <= frontier
        invariant Distinct(sel) && forall k :: 0 <= k < |sel| ==> sel[k] in frontier - rest
        invariant forall c :: CountKind(graph, sel, Some(c)) <= Units(numofResources, c)
        invariant forall i :: i in frontier - rest && i !in Elems(sel) ==>
          CountKind(graph, sel, Some(graph[i].opType)) >= Units(numofResources, graph[i].opType)
        decreases |rest|
      {
        var i :| i in rest;
        var c := graph[i].opType;
        if CountKind(graph, sel, Some(c)) < Units(numofResources, c) {
          ghost var prev := sel;
          assert (sel + [i])[..|sel|] == sel;
          sel := sel + [i];
          assert forall c' :: CountKind(graph, sel, Some(c')) == CountKind(graph, prev, Some(c')) + (if c' == c then 1 else 0);
          assert Elems(sel) == Elems(prev) + {i};
        }
        rest := rest - {i};
      }
    }

    /** Records each selected node at cycle `time`, on the next free unit of its category. */
    method RecordCycle(sel: seq<nat>, time: int)
      requires forall k :: 0 <= k < |sel| ==> sel[k] < |graph| && graph[sel[k]].Operator?
      modifies this
      ensures scheduledNodesInfo == old(scheduledNodesInfo) + CycleRecords(graph, sel, time)
      ensures graph == old(graph) && root == old(root) && numofResources == old(numofResources)
    {
      var used: map<Category, int> := map[];
      var k := 0;
      while k < |sel|
        invariant 0 <= k <= |sel|
        invariant graph == old(graph) && root == old(root) && numofResources == old(numofResources)
        invariant scheduledNodesInfo == old(scheduledNodesInfo) + CycleRecords(graph, sel[..k], time)
        invariant forall c :: Units(used, c) == CountKind(graph, sel[..k], Some(c))
      {
        var c := graph[sel[k]].opType;
        RecordScheduledNode(sel[k], time, Units(used, c));
        CountStep(graph, sel, k, Some(c));
        forall c' | c' != c ensures Units(used, c') == CountKind(graph, sel[..k + 1], Some(c')) {
          CountStep(graph, sel, k, Some(c'));
        }
        used := used[c := Units(used, c) + 1];
        assert sel[..k + 1][..k] == sel[..k];
        k := k + 1;
      }
      assert sel[..|sel|] == sel;
    }

    /**
     * One cycle `time`: takes the ready nodes, selects some and records them.
     * It fails only when no node is ready or none of the ready nodes has a unit.
     */
    method ScheduleCycle(time: int) returns (r: Result<(), ScheduleError>)
      requires PartialSchedule(graph, numofResources, scheduledNodesInfo, time)
      requires Recorded(scheduledNodesInfo) != OperatorNodes(graph)
      modifies this
      ensures graph == old(graph) && root == old(root) && numofResources == old(numofResources)
      ensures r.Err? ==> scheduledNodesInfo == old(scheduledNodesInfo)
      ensures r.Ok? ==>
        exists sel: seq<nat> :: && Selection(graph, numofResources, Recorded(old(scheduledNodesInfo)), sel)
                                && scheduledNodesInfo == old(scheduledNodesInfo) + CycleRecords(graph, sel, time)
      ensures r.Ok? ==>
        && PartialSchedule(graph, numofResources, scheduledNodesInfo, time + 1)
        && |OperatorNodes(graph) - Recorded(scheduledNodesInfo)| < |OperatorNodes(graph) - Recorded(old(scheduledNodesInfo))|
      ensures Schedulable(graph, numofResources) ==> r.Ok?
    {
      ghost var g, pool, done := graph, numofResources, Recorded(scheduledNodesInfo);
      var frontier := FindCandidateNodes();
      ReadyWhenOrdered(g, done);
      if frontier == {} {
        assert !OperandsBefore(g);
        return Err(NoCandidates);
      }
      var sel := SelectFromFrontier(frontier);
      if sel == [] {
        ghost var i :| i in frontier;
        assert i !in Elems(sel) && i in OperatorNodes(g);
        assert Units(pool, g[i].opType) < 1;
        return Err(Stuck);
      }
      ghost var before := scheduledNodesInfo;
      RecordCycle(sel, time);
      CycleStep(g, pool, before, time, sel);
      CycleGrows(g, before, sel);
      RemainingShrinks(OperatorNodes(g), done, Elems(sel));
      assert Selection(g, pool, done, sel) && scheduledNodesInfo == before + CycleRecords(g, sel, time);
      return Ok(());
    }

    /**
     * Repeats cycles 1, 2, ... until every operator node is recorded. The result
     * is a valid schedule of every operator node, each exactly once, finishing
     * within as many cycles as there are operator nodes; it is reached whenever
     * each operand comes earlier in the arena and every category in use has a unit.
     */
    method Schedule() returns (r: Result<(), ScheduleError>)
      requires scheduledNodesInfo == []
      modifies this
      ensures graph == old(graph) && root == old(root) && numofResources == old(numofResources)
      ensures r.Ok? ==>
        && PartialSchedule(graph, numofResources, scheduledNodesInfo, |OperatorNodes(graph)| + 1)
        && Recorded(scheduledNodesInfo) == OperatorNodes(graph)
      ensures Schedulable(graph, numofResources) ==> r.Ok?
    {
      var time := 1;
      while Recorded(scheduledNodesInfo) != OperatorNodes(graph)
        invariant graph == old(graph) && root == old(root) && numofResources == old(numofResources)
        invariant PartialSchedule(graph, numofResources, scheduledNodesInfo, time)
        decreases |OperatorNodes(graph) - Recorded(scheduledNodesInfo)|
      {
        r := ScheduleCycle(time);
        if r.Err? {
          return;
        }
        time := time + 1;
      }
      return Ok(());
    }
  }

  // ----- Latest start times (`MinResourceScheduler.find_latest_times`) -----

  function Min(a: int, b: int): int {
    if a < b then a else b
  }

  /** Node `c` is an operator node that takes node `i` as an operand. */
  predicate Consumes(graph: seq<Node>, c: nat, i: nat) {
    c < |graph| && graph[c].Operator? && i in Operands(graph[c])
  }

  /**
   * The latest cycle in which node `i` may run when every operation takes one
   * cycle and all must be done by `maxTime`: `maxTime` itself, or one cycle
   * before the latest start of its tightest consumer.
   */
  function Latest(graph: seq<Node>, maxTime: int, i: nat): int
    requires i < |graph|
    decreases |graph| - i, 1
  {
    LatestFrom(graph, maxTime, i, i + 1)
  }

  /** The same bound, taken over the consumers among nodes `c ..`. */
  function LatestFrom(graph: seq<Node>, maxTime: int, i: nat, c: nat): int
    requires i < c <= |graph|
    decreases |graph| - i, 0, |graph| - c
  {
    if c == |graph| then maxTime
    else
      var rest := LatestFrom(graph, maxTime, i, c + 1);
      if Consumes(graph, c, i) then Min(rest, Latest(graph, maxTime, c) - 1) else rest
  }

  /** The dictionary `find_latest_times` builds: a latest time for each operator node. */
  function LatestMap(graph: seq<Node>, maxTime: int): map<nat, int> {
    map i | i in OperatorNodes(graph) :: Latest(graph, maxTime, i)
  }

  /** A latest-time assignment every node could meet: within `maxTime`, and before each consumer. */
  predicate Feasible(graph: seq<Node>, maxTime: int, late: map<nat, int>) {
    && (forall j :: j in OperatorNodes(graph) ==> j in late && late[j] <= maxTime)
    && (forall j, c :: j in late && c in late && j in OperatorNodes(graph) && Consumes(graph, c, j) ==>
          late[j] <= late[c] - 1)
  }

  lemma {:induction false} LatestFromBounded(graph: seq<Node>, maxTime: int, i: nat, c: nat)
    requires i < c <= |graph|
    ensures LatestFrom(graph, maxTime, i, c) <= maxTime
    decreases |graph| - c
  {
    if c < |graph| { LatestFromBounded(graph, maxTime, i, c + 1); }
  }

  lemma {:induction false} LatestFromBeforeConsumers(graph: seq<Node>, maxTime: int, i: nat, c: nat)
    requires i < c <= |graph|
    ensures forall d :: c <= d && Consumes(graph, d, i) ==> LatestFrom(graph, maxTime, i, c) <= Latest(graph, maxTime, d) - 1
    decreases |graph| - c
  {
    if c < |graph| { LatestFromBeforeConsumers(graph, maxTime, i, c + 1); }
  }

  /**
   * With every operand earlier in the arena, the latest times are feasible: each
   * is at most `maxTime` and one less than that of every consumer.
   */
  lemma LatestFeasible(graph: seq<Node>, maxTime: int)
    requires OperandsBefore(graph)
    ensures Feasible(graph, maxTime, LatestMap(graph, maxTime))
  {
    var late := LatestMap(graph, maxTime);
    forall j | j in OperatorNodes(graph) ensures late[j] <= maxTime {
      LatestFromBounded(graph, maxTime, j, j + 1);
    }
    forall j, c | j in late && c in late && j in OperatorNodes(graph) && Consumes(graph, c, j)
      ensures late[j] <= late[c] - 1
    {
      LatestFromBeforeConsumers(graph, maxTime, j, j + 1);
    }
  }

  /** No feasible assignment gives an operator node a later time: these are the latest times. */
  lemma {:induction false} LatestGreatest(graph: seq<Node>, maxTime: int, late: map<nat, int>, i: nat)
    requires Feasible(graph, maxTime, late) && i in OperatorNodes(graph)
    ensures late[i] <= Latest(graph, maxTime, i)
    decreases |graph| - i, 1
  {
    LatestFromGreatest(graph, maxTime, late, i, i + 1);
  }

  lemma {:induction false} LatestFromGreatest(graph: seq<Node>, maxTime: int, late: map<nat, int>, i: nat, c: nat)
    requires Feasible(graph, maxTime, late) && i in OperatorNodes(graph) && i < c <= |graph|
    ensures late[i] <= LatestFrom(graph, maxTime, i, c)
    decreases |graph| - i, 0, |graph| - c
  {
    if c < |graph| {
      LatestFromGreatest(graph, maxTime, late, i, c + 1);
      if Consumes(graph, c, i) {
        assert c in OperatorNodes(graph);
        LatestGreatest(graph, maxTime, late, c);
      }
    }
  }

  /** `MinResourceScheduler`: a list scheduler with a deadline and the latest start of each node. */
  class MinResourceScheduler {
    var scheduler: ListScheduler
    var maxTime: int
    var latestTime: map<nat, int>

    /** The latest times are computed here, before any node is scheduled. */
    constructor (graph: seq<Node>, root: Option<nat>, numofResources: Option<map<Category, int>>, maxTime: int)
      ensures fresh(scheduler)
      ensures scheduler.graph == graph && scheduler.root == root && scheduler.scheduledNodesInfo == []
      ensures scheduler.numofResources == if numofResources.None? then DefaultPool() else numofResources.value
      ensures this.maxTime == maxTime && latestTime == LatestMap(graph, maxTime)
    {
      scheduler := new ListScheduler(graph, root, numofResources);
      this.maxTime := maxTime;
      new;
      latestTime := FindLatestTimes();
    }

    /** From the last node back, each operator node's time is bounded by its consumers' times. */
    method FindLatestTimes() returns (latest: map<nat, int>)
      ensures latest == LatestMap(scheduler.graph, maxTime)
    {
      var graph := scheduler.graph;
      latest := map[];
      var i := |graph|;
      while i > 0
        invariant 0 <= i <= |graph|
        invariant forall j :: j in latest <==> i <= j < |graph| && graph[j].Operator?
        invariant forall j :: j in latest ==> latest[j] == Latest(graph, maxTime, j)
      {
        i := i - 1;
        if graph[i].Operator? {
          var t := maxTime;
          var c := |graph|;
          while c > i + 1
            invariant i + 1 <= c <= |graph|
            invariant t == LatestFrom(graph, maxTime, i, c)
          {
            c := c - 1;
            if graph[c].Operator? && i in Operands(graph[c]) {
              t := Min(t, latest[c] - 1);
            }
          }
          latest := latest[i := t];
        }
      }
      assert latest.Keys == OperatorNodes(graph);
    }
  }
}

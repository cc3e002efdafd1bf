/** Capability definitions: their step graph, and the check that decides whether one may be stored
    (backend/fund_kb/capability_schema.py). */
module StepGraph {
  import opened Wrappers

  type StepId = string
  type Graph = map<StepId, set<StepId>>

  datatype Kind = Agent | Human
  datatype Risk = ReadOnly | DraftWrite | ExternalWrite | FinancialAction
  datatype FieldType = StringField | NumberField | IntegerField | BooleanField | DateField | JsonField
  datatype Field = Field(key: string, fieldType: FieldType, required: bool)
  datatype Step = Step(id: StepId, kind: Kind, dependsOn: set<StepId>, outputs: seq<Field>, risk: Risk)
  datatype Definition = Definition(inputs: seq<Field>, steps: seq<Step>)
  datatype DefinitionError = StepDuplicate | FieldDuplicate | DependencyMissing | DependencyCycle | HumanGateRequired

  // ----- vocabulary

  function Ids(steps: seq<Step>): (ids: seq<StepId>)
    ensures |ids| == |steps|
    ensures forall i | 0 <= i < |steps| :: ids[i] == steps[i].id
  {
    seq(|steps|, i requires 0 <= i < |steps| => steps[i].id)
  }

  predicate Distinct<T(==)>(s: seq<T>) {
    forall i, j | 0 <= i < j < |s| :: s[i] != s[j]
  }

  predicate DistinctKeys(fields: seq<Field>) {
    forall i, j | 0 <= i < j < |fields| :: fields[i].key != fields[j].key
  }

  predicate AllFieldsDistinct(d: Definition) {
    DistinctKeys(d.inputs) && forall i | 0 <= i < |d.steps| :: DistinctKeys(d.steps[i].outputs)
  }

  predicate Gated(step: Step) {
    step.risk in {ExternalWrite, FinancialAction} ==> step.kind == Human
  }

  predicate AllGated(d: Definition) {
    forall i | 0 <= i < |d.steps| :: Gated(d.steps[i])
  }

  function GraphOf(steps: seq<Step>): (g: Graph)
    requires Distinct(Ids(steps))
    ensures forall i | 0 <= i < |steps| :: steps[i].id in g && g[steps[i].id] == steps[i].dependsOn
  {
    if steps == [] then map[]
    else
      var last := |steps| - 1;
      assert forall i | 0 <= i < last :: Ids(steps[..last])[i] == Ids(steps)[i];
      assert forall i | 0 <= i < last :: steps[..last][i].id == Ids(steps)[i] != Ids(steps)[last] == steps[last].id;
      GraphOf(steps[..last])[steps[last].id := steps[last].dependsOn]
  }

  /** Every node of the graph is a step. */
  lemma {:induction false} NodeIsStep(steps: seq<Step>, k: StepId) returns (i: nat)
    requires Distinct(Ids(steps)) && k in GraphOf(steps)
    ensures i < |steps| && steps[i].id == k
  {
    var last := |steps| - 1;
    if steps[last].id == k {
      i := last;
    } else {
      assert forall j | 0 <= j < last :: Ids(steps[..last])[j] == Ids(steps)[j];
      i := NodeIsStep(steps[..last], k);
    }
  }

  predicate Closed(g: Graph) {
    forall k | k in g :: g[k] <= g.Keys
  }

  ghost predicate IsTopologicalOrder(g: Graph, order: seq<StepId>) {
    && Distinct(order)
    && (set k | k in order) == g.Keys
    && forall i | 0 <= i < |order| :: order[i] in g && g[order[i]] <= set k | k in order[..i]
  }

  ghost predicate Acyclic(g: Graph) {
    exists order :: IsTopologicalOrder(g, order)
  }

  /** Every step of the cycle waits for the next one, and the last for the first. */
  ghost predicate IsCycle(g: Graph, c: seq<StepId>) {
    && |c| > 0
    && (forall i | 0 <= i < |c| :: c[i] in g)
    && (forall i | 0 <= i < |c| - 1 :: c[i + 1] in g[c[i]])
    && c[0] in g[c[|c| - 1]]
  }

  ghost predicate Sound(d: Definition) {
    && Distinct(Ids(d.steps))
    && AllFieldsDistinct(d)
    && Closed(GraphOf(d.steps))
    && Acyclic(GraphOf(d.steps))
    && AllGated(d)
  }

  // ----- cycles and topological orders exclude each other

  lemma {:induction false} CycleExcludesOrder(g: Graph, c: seq<StepId>, order: seq<StepId>)
    requires IsCycle(g, c) && IsTopologicalOrder(g, order)
    ensures false
  {
    var last := c[|c| - 1];
    assert last in g.Keys;
    var i :| 0 <= i < |order| && order[i] == last;
    Backtrack(g, c, order, |c| - 1, i);
  }

  /** Following the cycle forwards from c[at] only ever moves backwards in the order. */
  lemma {:induction false} Backtrack(g: Graph, c: seq<StepId>, order: seq<StepId>, at: nat, place: nat)
    requires IsCycle(g, c) && IsTopologicalOrder(g, order)
    requires at < |c| && place < |order| && order[place] == c[at]
    ensures false
    decreases place
  {
    var next := if at == |c| - 1 then 0 else at + 1;
    assert c[next] in g[order[place]];
    assert c[next] in set k | k in order[..place];
    var j :| 0 <= j < place && order[..place][j] == c[next];
    Backtrack(g, c, order, next, j);
  }

  ghost predicate WaitsFor(g: Graph, k: StepId, stuck: set<StepId>)
    requires k in g
  {
    exists d :: d in g[k] && d in stuck
  }

  /** When every stuck step waits for a stuck step, the stuck steps contain a cycle. */
  lemma {:induction false} StuckHasCycle(g: Graph, stuck: set<StepId>, path: seq<StepId>) returns (c: seq<StepId>)
    requires stuck <= g.Keys && forall k | k in stuck :: WaitsFor(g, k, stuck)
    requires path != [] && Distinct(path) && forall i | 0 <= i < |path| :: path[i] in stuck
    requires forall i | 0 <= i < |path| - 1 :: path[i + 1] in g[path[i]]
    ensures IsCycle(g, c) && forall k | k in c :: k in stuck
    decreases |stuck| - |path|
  {
    var end := path[|path| - 1];
    var next :| next in g[end] && next in stuck;
    if i :| 0 <= i < |path| && path[i] == next {
      c := path[i..];
    } else {
      DistinctBound(path + [next], stuck);
      c := StuckHasCycle(g, stuck, path + [next]);
    }
  }

  lemma {:induction false} DistinctBound<T>(s: seq<T>, bound: set<T>)
    requires Distinct(s) && forall i | 0 <= i < |s| :: s[i] in bound
    ensures |s| <= |bound|
  {
    if s != [] {
      var last := |s| - 1;
      DistinctBound(s[..last], bound - {s[last]});
    }
  }

  /** With an order, some unresolved step always has all its dependencies resolved. */
  lemma {:induction false} ReadyStepExists(g: Graph, order: seq<StepId>, resolved: set<StepId>) returns (k: StepId)
    requires IsTopologicalOrder(g, order)
    requires !(g.Keys <= resolved)
    ensures k in g && k !in resolved && g[k] <= resolved
  {
    var missing :| missing in g.Keys && missing !in resolved;
    var i :| 0 <= i < |order| && order[i] == missing;
    k := EarliestUnresolved(g, order, resolved, i);
  }

  lemma {:induction false} EarliestUnresolved(g: Graph, order: seq<StepId>, resolved: set<StepId>, i: nat)
    returns (k: StepId)
    requires IsTopologicalOrder(g, order)
    requires i < |order| && order[i] !in resolved
    ensures k in g && k !in resolved && g[k] <= resolved
    decreases i
  {
    if j :| 0 <= j < i && order[j] !in resolved {
      k := EarliestUnresolved(g, order, resolved, j);
    } else {
      k := order[i];
      forall d | d in g[k] ensures d in resolved {
        assert d in set x | x in order[..i];
      }
    }
  }

  /** In a sound definition, while some step is not done, one can be done next. */
  lemma {:induction false} NextStepExists(d: Definition, done: set<StepId>, u: nat) returns (i: nat)
    requires Sound(d) && u < |d.steps| && d.steps[u].id !in done
    ensures i < |d.steps| && d.steps[i].id !in done && d.steps[i].dependsOn <= done
  {
    var g := GraphOf(d.steps);
    var order :| IsTopologicalOrder(g, order);
    assert d.steps[u].id in g.Keys;
    var k := ReadyStepExists(g, order, done);
    i := NodeIsStep(d.steps, k);
  }

  /** The ready steps of one round, as a sequence; the order inside a round is immaterial. */
  lemma {:induction false} Enumerate<T>(s: set<T>) returns (e: seq<T>)
    ensures Distinct(e) && (set k | k in e) == s
  {
    if s == {} {
      e := [];
    } else {
      var x :| x in s;
      var rest := Enumerate(s - {x});
      e := rest + [x];
      assert forall k | k in rest :: k in s - {x} by {
        assert forall k | k in rest :: k in set y | y in rest;
      }
      assert (set k | k in e) == (set k | k in rest) + {x};
    }
  }

  /** `order` lists `resolved`, each step after its dependencies. */
  ghost predicate OrdersPrefix(g: Graph, order: seq<StepId>, resolved: set<StepId>) {
    && Distinct(order)
    && (set k | k in order) == resolved <= g.Keys
    && forall i | 0 <= i < |order| :: g[order[i]] <= set k | k in order[..i]
  }

  lemma {:induction false} ExtendPrefix(g: Graph, order: seq<StepId>, resolved: set<StepId>, e: seq<StepId>)
    requires OrdersPrefix(g, order, resolved) && Distinct(e)
    requires forall k | k in e :: k in g && k !in resolved && g[k] <= resolved
    ensures OrdersPrefix(g, order + e, resolved + set k | k in e)
  {
    var whole := order + e;
    forall i | 0 <= i < |whole| ensures g[whole[i]] <= set k | k in whole[..i] {
      if i < |order| {
        assert whole[..i] == order[..i];
      } else {
        assert whole[i] in e;
        assert forall k | k in resolved :: k in order;
        assert whole[..i] == order + e[..i - |order|];
      }
    }
  }

  lemma {:induction false} ExtendByReady(g: Graph, order: seq<StepId>, resolved: set<StepId>, ready: set<StepId>)
    returns (longer: seq<StepId>)
    requires OrdersPrefix(g, order, resolved)
    requires forall k | k in ready :: k in g && k !in resolved && g[k] <= resolved
    ensures OrdersPrefix(g, longer, resolved + ready)
  {
    var e := Enumerate(ready);
    assert forall k | k in e :: k in set x | x in e;
    ExtendPrefix(g, order, resolved, e);
    longer := order + e;
  }

  lemma {:induction false} NoReadyStep(g: Graph, resolved: set<StepId>) returns (c: seq<StepId>)
    requires Closed(g) && !(g.Keys <= resolved)
    requires forall k | k in g && k !in resolved :: !(g[k] <= resolved)
    ensures IsCycle(g, c) && forall k | k in c :: k !in resolved
  {
    var stuck := g.Keys - resolved;
    var first :| first in g.Keys && first !in resolved;
    forall k | k in stuck ensures WaitsFor(g, k, stuck) {
      var d :| d in g[k] && d !in resolved;
      assert d in stuck;
    }
    c := StuckHasCycle(g, stuck, [first]);
  }

  lemma {:induction false} CyclicHasNoOrder(g: Graph, c: seq<StepId>)
    requires IsCycle(g, c)
    ensures !Acyclic(g)
  {
    forall order | IsTopologicalOrder(g, order) ensures false {
      CycleExcludesOrder(g, c, order);
    }
  }

  lemma {:induction false} OrderedHasNoCycle(g: Graph, order: seq<StepId>)
    requires OrdersPrefix(g, order, g.Keys)
    ensures Acyclic(g) && !exists c :: IsCycle(g, c)
  {
    assert IsTopologicalOrder(g, order);
    forall c | IsCycle(g, c) ensures false {
      CycleExcludesOrder(g, c, order);
    }
  }

  // ----- the check

  /** Layered resolution: each round takes the steps whose dependencies are resolved. */
  method CheckAcyclic(graph: Graph) returns (ok: bool)
    requires Closed(graph)
    ensures ok <==> Acyclic(graph)
    ensures !ok <==> exists c :: IsCycle(graph, c)
  {
    var remaining, resolved := graph, {};
    ghost var order := [];
    while remaining != map[]
      invariant remaining.Keys == graph.Keys - resolved && resolved <= graph.Keys
      invariant forall k | k in remaining :: remaining[k] == graph[k]
      invariant OrdersPrefix(graph, order, resolved)
      decreases remaining.Keys
    {
      var ready := set k | k in remaining && remaining[k] <= resolved;
      if ready == {} {
        assert forall k | k in graph && k !in resolved :: k in remaining && k !in ready;
        ghost var cycle := NoReadyStep(graph, resolved);
        CyclicHasNoOrder(graph, cycle);
        return false;
      }
      order := ExtendByReady(graph, order, resolved, ready);
      resolved := resolved + ready;
      remaining := map k | k in remaining && k !in ready :: remaining[k];
    }
    assert graph.Keys - resolved == {};
    OrderedHasNoCycle(graph, order);
    return true;
  }

  /** Accepts exactly the sound definitions, and names the first rule an unsound one breaks. */
  method ValidateDefinition(d: Definition) returns (r: Outcome<DefinitionError>)
    ensures r == Pass <==> Sound(d)
    ensures r == Fail(StepDuplicate) <==> !Distinct(Ids(d.steps))
    ensures r == Fail(FieldDuplicate) <==> Distinct(Ids(d.steps)) && !AllFieldsDistinct(d)
    ensures r == Fail(DependencyMissing) <==>
            Distinct(Ids(d.steps)) && AllFieldsDistinct(d) && !Closed(GraphOf(d.steps))
    ensures r == Fail(DependencyCycle) <==>
            && Distinct(Ids(d.steps)) && AllFieldsDistinct(d) && Closed(GraphOf(d.steps))
            && exists c :: IsCycle(GraphOf(d.steps), c)
  {
    if !Distinct(Ids(d.steps)) {
      return Fail(StepDuplicate);
    }
    if !AllFieldsDistinct(d) {
      return Fail(FieldDuplicate);
    }
    var graph := GraphOf(d.steps);
    if !Closed(graph) {
      return Fail(DependencyMissing);
    }
    var acyclic := CheckAcyclic(graph);
    if !acyclic {
      return Fail(DependencyCycle);
    }
    if !AllGated(d) {
      return Fail(HumanGateRequired);
    }
    return Pass;
  }
}

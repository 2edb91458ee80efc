/**
 The limiter of `api/graphql_cost.py`: which operations and fragments
 `calculate_query_cost` takes from a document, what it makes of several
 operations, and what the decision built on it is worth.
 */
module GraphqlLimiter {
  import opened Wrappers
  import opened GraphqlSyntax
  import opened GraphqlCost
  import opened GraphqlInlining
  import opened GraphqlExecution
  import opened GraphqlWhole
  import opened GraphqlBound
  import opened GraphqlAttained
  import opened GraphqlExact

  // ---------------------------------------------------------------- what is taken from a document

  /** Operations the query names; all of them when no name is given. */
  function Selected(ops: seq<Operation>, name: string): seq<Operation> {
    if ops == [] then []
    else
      var op := ops[|ops| - 1];
      Selected(ops[..|ops| - 1], name) + (if name == "" || op.name == Some(name) then [op] else [])
  }

  predicate Asked(op: Operation, name: string) { name != "" ==> op.name.Some? && op.name.value == name }

  /** `at` lists the positions of exactly the operations asked for, in document order. */
  ghost predicate Picks(ops: seq<Operation>, name: string, at: seq<nat>) {
    && (forall k :: 0 <= k < |at| ==> at[k] < |ops| && Asked(ops[at[k]], name))
    && (forall j, k :: 0 <= j < k < |at| ==> at[j] < at[k])
    && (forall i :: 0 <= i < |ops| && Asked(ops[i], name) ==> i in at)
  }

  /** The selected operations are those asked for, each once and in order. */
  lemma {:induction false} SelectedArePicked(ops: seq<Operation>, name: string) returns (at: seq<nat>)
    ensures Picks(ops, name, at) && |Selected(ops, name)| == |at|
    ensures forall k :: 0 <= k < |at| ==> Selected(ops, name)[k] == ops[at[k]]
  {
    at := [];
    if ops != [] {
      var last := |ops| - 1;
      at := SelectedArePicked(ops[..last], name);
      if Asked(ops[last], name) {
        PicksExtended(ops, name, at);
        at := at + [last];
      }
    }
  }

  lemma PicksExtended(ops: seq<Operation>, name: string, at: seq<nat>)
    requires ops != [] && Picks(ops[..|ops| - 1], name, at) && Asked(ops[|ops| - 1], name)
    ensures Picks(ops, name, at + [|ops| - 1])
  {
    var last := |ops| - 1;
    forall i | 0 <= i < |ops| && Asked(ops[i], name) ensures i in at + [last] {
      assert i < last ==> ops[..last][i] == ops[i];
    }
  }

  lemma SelectedMembers(ops: seq<Operation>, name: string, op: Operation)
    ensures op in Selected(ops, name) <==> op in ops && Asked(op, name)
  {
    var at := SelectedArePicked(ops, name);
    if op in ops && Asked(op, name) {
      var i :| 0 <= i < |ops| && ops[i] == op;
      var k :| 0 <= k < |at| && at[k] == i;
      assert Selected(ops, name)[k] == op;
    }
  }

  /** A fragment name stands for its last definition. */
  lemma {:induction false} FragmentIsLastDefinition(defs: seq<(string, seq<Selection>)>, i: nat)
    requires i < |defs| && forall j :: i < j < |defs| ==> defs[j].0 != defs[i].0
    ensures defs[i].0 in FragmentMap(defs) && FragmentMap(defs)[defs[i].0] == defs[i].1
  {
    var last := |defs| - 1;
    if i < last {
      FragmentIsLastDefinition(defs[..last], i);
    }
  }

  /** Only defined fragments are known. */
  lemma {:induction false} FragmentsAreDefined(defs: seq<(string, seq<Selection>)>, n: string)
    ensures n in FragmentMap(defs) <==> exists i :: 0 <= i < |defs| && defs[i].0 == n
  {
    if defs != [] {
      var last := |defs| - 1;
      FragmentsAreDefined(defs[..last], n);
      if n in FragmentMap(defs[..last]) {
        var i :| 0 <= i < last && defs[..last][i].0 == n;
        assert defs[i].0 == n;
      }
      if i :| 0 <= i < |defs| && defs[i].0 == n && i < last {
        assert defs[..last][i].0 == n;
      }
    }
  }

  // ---------------------------------------------------------------- several operations

  function OperationCost(e: Env, roots: map<string, string>, op: Operation): QueryCost {
    if op.kind in roots then SelectionCost(e, roots[op.kind], op.sels, 1, {}) else QueryCost(0, 0)
  }

  function TotalCost(e: Env, roots: map<string, string>, ops: seq<Operation>): QueryCost {
    if ops == [] then QueryCost(0, 0)
    else Plus(TotalCost(e, roots, ops[..|ops| - 1]), OperationCost(e, roots, ops[|ops| - 1]))
  }

  function DocumentCost(schema: Schema, roots: map<string, string>, doc: Document, name: string, multiplier: int): QueryCost {
    TotalCost(Env(schema, FragmentMap(doc.fragments), multiplier), roots, Selected(doc.operations, name))
  }

  /** `calculate_query_cost`. */
  method CalculateQueryCost(schema: Schema, roots: map<string, string>, doc: Document, name: string, multiplier: int)
    returns (total: QueryCost)
    ensures total == DocumentCost(schema, roots, doc, name, multiplier)
  {
    var e := Env(schema, FragmentMap(doc.fragments), multiplier);
    var ops := Selected(doc.operations, name);
    total := QueryCost(0, 0);
    hide SelectionCost, Selected, FragmentMap;
    for i := 0 to |ops|
      invariant total == TotalCost(e, roots, ops[..i])
    {
      assert ops[..i + 1][..i] == ops[..i];
      if ops[i].kind in roots {
        var cost, depth := SelectionCostLoop(e, roots[ops[i].kind], ops[i].sels, 1, {});
        total := QueryCost(total.cost + cost, Max(total.depth, depth));
      }
    }
    assert ops[..|ops|] == ops;
  }

  lemma {:induction false} OperationWithinTotal(e: Env, roots: map<string, string>, ops: seq<Operation>, op: Operation)
    requires e.multiplier >= 0
    ensures TotalCost(e, roots, ops).cost >= 0 && TotalCost(e, roots, ops).depth >= 0
    ensures op in ops ==> AtMost(OperationCost(e, roots, op), TotalCost(e, roots, ops))
    decreases |ops|
  {
    if ops != [] {
      var (front, last) := (ops[..|ops| - 1], ops[|ops| - 1]);
      OperationWithinTotal(e, roots, front, op);
      if last.kind in roots {
        CostNonNegative(e, roots[last.kind], last.sels, 1, {});
      }
      assert op in ops ==> op in front || op == last;
    }
  }

  function CostSum(e: Env, roots: map<string, string>, ops: seq<Operation>): int {
    if ops == [] then 0 else OperationCost(e, roots, ops[0]).cost + CostSum(e, roots, ops[1..])
  }

  lemma {:induction false} CostSumAppend(e: Env, roots: map<string, string>, ops: seq<Operation>, op: Operation)
    ensures CostSum(e, roots, ops + [op]) == CostSum(e, roots, ops) + OperationCost(e, roots, op).cost
  {
    hide OperationCost;
    if ops == [] {
      assert [op][1..] == [] && ops + [op] == [op];
    } else {
      assert (ops + [op])[1..] == ops[1..] + [op];
      CostSumAppend(e, roots, ops[1..], op);
    }
  }

  /** Costs add up; the depth is the deepest operation's, and zero if none is analysed. */
  lemma {:induction false} TotalIsSumAndMaximum(e: Env, roots: map<string, string>, ops: seq<Operation>)
    ensures TotalCost(e, roots, ops).cost == CostSum(e, roots, ops)
    ensures TotalCost(e, roots, ops).depth == 0
      || exists i :: 0 <= i < |ops| && TotalCost(e, roots, ops).depth == OperationCost(e, roots, ops[i]).depth
    ensures forall i :: 0 <= i < |ops| ==> OperationCost(e, roots, ops[i]).depth <= TotalCost(e, roots, ops).depth
    ensures TotalCost(e, roots, ops).depth >= 0
  {
    hide OperationCost;
    if ops != [] {
      var (front, last) := (ops[..|ops| - 1], ops[|ops| - 1]);
      TotalIsSumAndMaximum(e, roots, front);
      CostSumAppend(e, roots, front, last);
      assert ops == front + [last];
      if i :| 0 <= i < |front| && TotalCost(e, roots, front).depth == OperationCost(e, roots, front[i]).depth {
        assert ops[i] == front[i];
      }
      assert ops[|ops| - 1] == last;
      forall i | 0 <= i < |ops| ensures OperationCost(e, roots, ops[i]).depth <= TotalCost(e, roots, ops).depth {
        assert i < |front| ==> ops[i] == front[i];
      }
    }
  }

  /** Exactly one operation is asked for. */
  ghost predicate OnlyOne(ops: seq<Operation>, name: string, i: nat) {
    i < |ops| && Asked(ops[i], name) && forall j :: 0 <= j < |ops| && j != i ==> !Asked(ops[j], name)
  }

  lemma FirstBeforeLast(at: seq<nat>)
    requires forall j, k :: 0 <= j < k < |at| ==> at[j] < at[k]
    ensures |at| > 1 ==> at[0] < at[|at| - 1]
  {
  }

  lemma OneIsSelected(ops: seq<Operation>, name: string, i: nat)
    requires OnlyOne(ops, name, i)
    ensures Selected(ops, name) == [ops[i]]
  {
    var at := SelectedArePicked(ops, name);
    FirstBeforeLast(at);
    assert i in at;
    assert forall k :: 0 <= k < |at| ==> at[k] == i;
  }

  /**
   A document's cost is that of the operation asked for, whatever other
   operations it defines; if none is asked for by that name, it is nothing.
   */
  lemma CostOfNamedOperation(schema: Schema, roots: map<string, string>, doc: Document, name: string, multiplier: int)
    ensures forall i: nat :: OnlyOne(doc.operations, name, i) && doc.operations[i].kind in roots ==>
      var op := doc.operations[i];
      DocumentCost(schema, roots, doc, name, multiplier)
      == SelectionCost(Env(schema, FragmentMap(doc.fragments), multiplier), roots[op.kind], op.sels, 1, {})
    ensures (forall i :: 0 <= i < |doc.operations| ==> !Asked(doc.operations[i], name)) ==>
      DocumentCost(schema, roots, doc, name, multiplier) == QueryCost(0, 0)
  {
    var (ops, e) := (doc.operations, Env(schema, FragmentMap(doc.fragments), multiplier));
    hide SelectionCost, FragmentMap;
    forall i: nat | OnlyOne(ops, name, i) && ops[i].kind in roots
      ensures TotalCost(e, roots, Selected(ops, name)) == SelectionCost(e, roots[ops[i].kind], ops[i].sels, 1, {})
    {
      OneIsSelected(ops, name, i);
      TotalOfOne(e, roots, ops[i]);
    }
    var at := SelectedArePicked(ops, name);
    assert at != [] ==> Asked(ops[at[0]], name);
  }

  lemma TotalOfOne(e: Env, roots: map<string, string>, op: Operation)
    requires op.kind in roots
    ensures TotalCost(e, roots, [op]) == SelectionCost(e, roots[op.kind], op.sels, 1, {})
  {
    assert [op][..0] == [];
    assert TotalCost(e, roots, [op][..0]) == QueryCost(0, 0);
    assert TotalCost(e, roots, [op]) == Plus(QueryCost(0, 0), OperationCost(e, roots, op));
  }

  // ---------------------------------------------------------------- the decision

  datatype Decision = TooDeep(depth: int, maxDepth: int) | TooCostly(cost: int, budget: int) | Allowed

  /** A budget of zero means unlimited. */
  function Decide(result: QueryCost, maxDepth: int, budget: int): Decision {
    if result.depth > maxDepth then TooDeep(result.depth, maxDepth)
    else if budget > 0 && result.cost > budget then TooCostly(result.cost, budget)
    else Allowed
  }

  /** `_check_cost`; a query that did not parse is left to the parser's errors. */
  method CheckCost(schema: Schema, roots: map<string, string>, doc: Option<Document>, name: string, multiplier: int,
                   maxDepth: int, budget: int)
    returns (d: Decision)
    ensures doc.None? ==> d == Allowed
    ensures doc.Some? ==>
      var cost := DocumentCost(schema, roots, doc.value, name, multiplier);
      && (d.Allowed? <==> cost.depth <= maxDepth && (budget > 0 ==> cost.cost <= budget))
      && (d.TooDeep? <==> cost.depth > maxDepth)
      && (d.TooDeep? ==> d == TooDeep(cost.depth, maxDepth))
      && (d.TooCostly? ==> d == TooCostly(cost.cost, budget))
      && d == Decide(cost, maxDepth, budget)
  {
    if doc.None? {
      return Allowed;
    }
    var cost := CalculateQueryCost(schema, roots, doc.value, name, multiplier);
    return Decide(cost, maxDepth, budget);
  }

  /**
   A document the limiter lets through resolves no more fields than its budget
   and no deeper than its limit, whichever of the operations asked for is executed.
   */
  lemma LimiterIsSound(schema: Schema, roots: map<string, string>, doc: Document, name: string, multiplier: int,
                       op: Operation, keep: Keep, v: Value, maxDepth: int, budget: int)
    requires multiplier >= 1 && ObjectSchema(schema) && v.Object? && FanOut(v, multiplier)
    requires op in doc.operations && Asked(op, name) && op.kind in roots
    requires var e := Env(schema, FragmentMap(doc.fragments), multiplier);
      Acyclic(e.frags, op.sels, {}) && WholeDocument(e, roots[op.kind], op.sels, 1)
    requires Decide(DocumentCost(schema, roots, doc, name, multiplier), maxDepth, budget) == Allowed
    ensures var done := Execute(Env(schema, FragmentMap(doc.fragments), multiplier), keep, roots[op.kind], op.sels, v, 1);
      done.depth <= maxDepth && (budget > 0 ==> done.cost <= budget)
  {
    var e := Env(schema, FragmentMap(doc.fragments), multiplier);
    hide Execute, SelectionCost, TotalCost, Whole, Shallow, Acyclic, FanOut, FragmentMap, Selected;
    SelectedMembers(doc.operations, name, op);
    StaticCostBoundsExecution(e, keep, roots[op.kind], op.sels, v, 1);
    OperationWithinTotal(e, roots, Selected(doc.operations, name), op);
  }

  // ---------------------------------------------------------------- it refuses nothing else

  /** No execution with the permitted fan-out nests deeper than `maxDepth`. */
  ghost predicate StaysWithinDepth(e: Env, typ: string, sels: seq<Selection>, maxDepth: int) {
    forall keep: Keep, v: Value :: v.Object? && FanOut(v, e.multiplier) ==> Execute(e, keep, typ, sels, v, 1).depth <= maxDepth
  }

  /** ... or resolves more than `budget` fields. */
  ghost predicate StaysWithinBudget(e: Env, typ: string, sels: seq<Selection>, budget: int) {
    forall keep: Keep, v: Value :: v.Object? && FanOut(v, e.multiplier) ==> Execute(e, keep, typ, sels, v, 1).cost <= budget
  }

  /** Static cost and depth are the largest any execution reaches. */
  lemma CostIsLargest(e: Env, typ: string, sels: seq<Selection>, maxDepth: int, budget: int)
    requires e.multiplier >= 1 && ObjectSchema(e.schema) && Acyclic(e.frags, sels, {}) && WholeDocument(e, typ, sels, 1)
    requires Plainly(e.schema, typ, Written(e.frags, sels, {})) && Written(e.frags, sels, {}) != []
    requires Solid(Inlined(e.frags, sels, {}))
    ensures StaysWithinDepth(e, typ, sels, maxDepth) <==> SelectionCost(e, typ, sels, 1, {}).depth <= maxDepth
    ensures StaysWithinBudget(e, typ, sels, budget) <==> SelectionCost(e, typ, sels, 1, {}).cost <= budget
  {
    hide Execute, Whole, Shallow, Inlined, Acyclic, FanOut, Plainly, Solid, SelectionCost;
    var said := SelectionCost(e, typ, sels, 1, {});
    ExactIffWhole(e, typ, sels, 1);
    var v := FullestCost(e, typ, sels, 1);
    forall keep: Keep, w: Value | w.Object? && FanOut(w, e.multiplier)
      ensures Execute(e, keep, typ, sels, w, 1).cost <= said.cost && Execute(e, keep, typ, sels, w, 1).depth <= said.depth
    {
      StaticCostBoundsExecution(e, keep, typ, sels, w, 1);
    }
    assert Execute(e, Always, typ, sels, v, 1) == said;
  }

  /**
   The decision is exact: for a whole document of known fields with distinct
   response keys, a query is refused as too deep if and only if some execution of
   the operation asked for nests deeper than the limit, refused as too costly if
   and only if none does but some resolves more fields than a positive budget,
   and let through otherwise.
   */
  lemma LimiterIsExact(schema: Schema, roots: map<string, string>, doc: Document, name: string, multiplier: int,
                       i: nat, maxDepth: int, budget: int)
    requires multiplier >= 1 && ObjectSchema(schema) && OnlyOne(doc.operations, name, i)
    requires doc.operations[i].kind in roots
    requires var (e, op) := (Env(schema, FragmentMap(doc.fragments), multiplier), doc.operations[i]);
      && Acyclic(e.frags, op.sels, {}) && WholeDocument(e, roots[op.kind], op.sels, 1)
      && Plainly(schema, roots[op.kind], Written(e.frags, op.sels, {})) && Written(e.frags, op.sels, {}) != []
      && Solid(Inlined(e.frags, op.sels, {}))
    ensures var (e, op) := (Env(schema, FragmentMap(doc.fragments), multiplier), doc.operations[i]);
      var d := Decide(DocumentCost(schema, roots, doc, name, multiplier), maxDepth, budget);
      var deep := !StaysWithinDepth(e, roots[op.kind], op.sels, maxDepth);
      var costly := budget > 0 && !StaysWithinBudget(e, roots[op.kind], op.sels, budget);
      && (d.TooDeep? <==> deep)
      && (d.TooCostly? <==> !deep && costly)
      && (d.Allowed? <==> !deep && !costly)
  {
    var (e, op) := (Env(schema, FragmentMap(doc.fragments), multiplier), doc.operations[i]);
    hide Whole, Shallow, Inlined, Acyclic, Plainly, Solid, SelectionCost, FragmentMap, Selected, TotalCost,
      StaysWithinDepth, StaysWithinBudget;
    CostOfNamedOperation(schema, roots, doc, name, multiplier);
    CostIsLargest(e, roots[op.kind], op.sels, maxDepth, budget);
  }
}

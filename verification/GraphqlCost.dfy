/**
 Static query-cost analysis of `api/graphql_cost.py`: `_selection_cost`,
 `calculate_query_cost` and the limiter's decision.
 */
module GraphqlCost {
  import opened GraphqlSyntax

  datatype Env = Env(schema: Schema, frags: Fragments, multiplier: int)

  datatype QueryCost = QueryCost(cost: int, depth: int)

  function Max(a: int, b: int): int { if a >= b then a else b }

  function Plus(a: QueryCost, b: QueryCost): QueryCost { QueryCost(a.cost + b.cost, Max(a.depth, b.depth)) }

  // ---------------------------------------------------------------- the analysis

  /** Is the field costed at all: not introspection, and known to its parent type? */
  predicate Costed(s: Schema, parent: string, name: string) {
    !Introspection(name) && name in FieldsOf(s, parent)
  }

  function Factor(t: TypeRef, multiplier: int): int { if IsList(t) then multiplier else 1 }

  /** A costed field, given the cost of its sub-selection. */
  function FieldPlus(t: TypeRef, multiplier: int, depth: int, child: QueryCost): QueryCost {
    QueryCost(1 + child.cost * Factor(t, multiplier), Max(depth, child.depth))
  }

  /** Does the analysis enter this spread? */
  predicate Enters(frags: Fragments, sel: Selection, visiting: set<string>) {
    sel.Spread? && sel.frag in frags && sel.frag !in visiting
  }

  /** Line 111 rebinds `visiting`: whatever follows an entered spread sees it as visited. */
  function After(frags: Fragments, sel: Selection, visiting: set<string>): (v: set<string>)
    ensures visiting <= v
    ensures Left(frags, v) <= Left(frags, visiting)
  {
    if Enters(frags, sel, visiting) then
      LeftShrinks(frags, visiting, sel.frag);
      visiting + {sel.frag}
    else visiting
  }

  /** What one selection contributes. */
  function OneCost(e: Env, parent: string, sel: Selection, depth: int, visiting: set<string>): (c: QueryCost)
    ensures c.depth >= depth
    decreases Left(e.frags, visiting), SelSize(sel), 0
  {
    match sel
    case Field(name, _, _, sub) =>
      if !Costed(e.schema, parent, name) then QueryCost(0, depth)
      else
        var t := FieldsOf(e.schema, parent)[name];
        FieldPlus(t, e.multiplier, depth,
                  if sub != [] && IsObject(e.schema, NamedType(t))
                  then SelectionCost(e, NamedType(t), sub, depth + 1, visiting)
                  else QueryCost(0, depth))
    case Inline(_, sub) => SelectionCost(e, parent, sub, depth, visiting)
    case Spread(n, _) =>
      if n !in e.frags || n in visiting then QueryCost(0, depth)
      else
        LeftShrinks(e.frags, visiting, n);
        SelectionCost(e, parent, e.frags[n], depth, visiting + {n})
  }

  /** `_selection_cost`: the sum and maximum over a selection set, `visiting` threaded through. */
  function SelectionCost(e: Env, parent: string, sels: seq<Selection>, depth: int, visiting: set<string>): (c: QueryCost)
    ensures c.depth >= depth
    decreases Left(e.frags, visiting), Size(sels), 1
  {
    if sels == [] then QueryCost(0, depth)
    else
      Plus(OneCost(e, parent, sels[0], depth, visiting),
           SelectionCost(e, parent, sels[1..], depth, After(e.frags, sels[0], visiting)))
  }

  /** A costed field: its child selection first, then the fan-out. */
  method CostField(e: Env, t: TypeRef, sub: seq<Selection>, depth: int, visiting: set<string>)
    returns (c: int, d: int)
    ensures QueryCost(c, d) == FieldPlus(t, e.multiplier, depth,
                                         if sub != [] && IsObject(e.schema, NamedType(t))
                                         then SelectionCost(e, NamedType(t), sub, depth + 1, visiting)
                                         else QueryCost(0, depth))
    decreases Left(e.frags, visiting), Size(sub) + 1, 0
  {
    var childCost, childDepth := 0, depth;
    if sub != [] && IsObject(e.schema, NamedType(t)) {
      childCost, childDepth := SelectionCostLoop(e, NamedType(t), sub, depth + 1, visiting);
    }
    c, d := 1 + childCost * Factor(t, e.multiplier), Max(depth, childDepth);
  }

  /** The body of the loop of `_selection_cost`: (0, depth) stands for `continue`. */
  method CostSelection(e: Env, parent: string, sel: Selection, depth: int, visiting: set<string>)
    returns (c: int, d: int, visiting': set<string>)
    ensures QueryCost(c, d) == OneCost(e, parent, sel, depth, visiting)
    ensures visiting' == After(e.frags, sel, visiting)
    decreases Left(e.frags, visiting), SelSize(sel), 1
  {
    c, d, visiting' := 0, depth, visiting;
    match sel
    case Field(name, _, _, sub) =>
      if !Introspection(name) && name in FieldsOf(e.schema, parent) {
        c, d := CostField(e, FieldsOf(e.schema, parent)[name], sub, depth, visiting);
      }
    case Inline(_, sub) =>
      c, d := SelectionCostLoop(e, parent, sub, depth, visiting);
    case Spread(n, _) =>
      if n in e.frags && n !in visiting {
        LeftShrinks(e.frags, visiting, n);
        visiting' := visiting + {n};
        c, d := SelectionCostLoop(e, parent, e.frags[n], depth, visiting');
      }
  }

  /** One iteration moves a selection from the cost still to come into the accumulator. */
  lemma AddNext(e: Env, parent: string, sels: seq<Selection>, depth: int, visiting: set<string>, acc: QueryCost)
    requires sels != []
    ensures Plus(acc, SelectionCost(e, parent, sels, depth, visiting))
            == Plus(Plus(acc, OneCost(e, parent, sels[0], depth, visiting)),
                    SelectionCost(e, parent, sels[1..], depth, After(e.frags, sels[0], visiting)))
    ensures SelSize(sels[0]) <= Size(sels) && Size(sels[1..]) <= Size(sels)
  {
  }

  /** The loop of `_selection_cost`, with its accumulators. */
  method SelectionCostLoop(e: Env, parent: string, sels: seq<Selection>, depth: int, visiting0: set<string>)
    returns (cost: int, maxDepth: int)
    ensures QueryCost(cost, maxDepth) == SelectionCost(e, parent, sels, depth, visiting0)
    decreases Left(e.frags, visiting0), Size(sels), 2
  {
    cost, maxDepth := 0, depth;
    var visiting := visiting0;
    var todo := sels;
    ghost var total := SelectionCost(e, parent, sels, depth, visiting0);
    while todo != []
      invariant Left(e.frags, visiting) <= Left(e.frags, visiting0) && Size(todo) <= Size(sels)
      invariant maxDepth >= depth
      invariant Plus(QueryCost(cost, maxDepth), SelectionCost(e, parent, todo, depth, visiting)) == total
      decreases |todo|
    {
      AddNext(e, parent, todo, depth, visiting, QueryCost(cost, maxDepth));
      var c, d, next := CostSelection(e, parent, todo[0], depth, visiting);
      cost, maxDepth := cost + c, Max(maxDepth, d);
      visiting, todo := next, todo[1..];
    }
  }
}

/**
 Fragment inlining, and what the cost analysis makes of it: on documents that
 spread each fragment at most once, cost and depth are those of the document
 with every spread replaced by its fragment (sections 2.8 and 5.5.2.2 of the
 GraphQL specification, October 2021).
 */
module GraphqlInlining {
  import opened GraphqlSyntax
  import opened GraphqlCost

  // ---------------------------------------------------------------- inlining

  /** Replace a spread by its fragment; a missing or cyclic one becomes an empty fragment. */
  function InlinedOne(frags: Fragments, sel: Selection, stack: set<string>): Selection
    decreases Left(frags, stack), SelSize(sel), 0
  {
    match sel
    case Field(name, key, meta, sub) => Field(name, key, meta, Inlined(frags, sub, stack))
    case Inline(meta, sub) => Inline(meta, Inlined(frags, sub, stack))
    case Spread(n, meta) =>
      if n !in frags || n in stack then Inline(meta, [])
      else
        LeftShrinks(frags, stack, n);
        Inline(meta, Inlined(frags, frags[n], stack + {n}))
  }

  function Inlined(frags: Fragments, sels: seq<Selection>, stack: set<string>): (r: seq<Selection>)
    ensures |r| == |sels|
    decreases Left(frags, stack), Size(sels), 1
  {
    if sels == [] then [] else [InlinedOne(frags, sels[0], stack)] + Inlined(frags, sels[1..], stack)
  }

  /** No fragment spreads itself, directly or through others (`stack`: those being expanded). */
  predicate AcyclicOne(frags: Fragments, sel: Selection, stack: set<string>)
    decreases Left(frags, stack), SelSize(sel), 0
  {
    match sel
    case Field(_, _, _, sub) => Acyclic(frags, sub, stack)
    case Inline(_, sub) => Acyclic(frags, sub, stack)
    case Spread(n, _) =>
      n in frags ==> n !in stack && (LeftShrinks(frags, stack, n); Acyclic(frags, frags[n], stack + {n}))
  }

  predicate Acyclic(frags: Fragments, sels: seq<Selection>, stack: set<string>)
    decreases Left(frags, stack), Size(sels), 1
  {
    sels == [] || (AcyclicOne(frags, sels[0], stack) && Acyclic(frags, sels[1..], stack))
  }

  /** The same analysis on a document without fragments. */
  function Plain(e: Env): Env { e.(frags := map[]) }

  function TreeCost(e: Env, parent: string, tree: seq<Selection>, depth: int): (c: QueryCost)
    ensures c.depth >= depth
  {
    SelectionCost(Plain(e), parent, tree, depth, {})
  }

  function TreeOne(e: Env, parent: string, sel: Selection, depth: int): (c: QueryCost)
    ensures c.depth >= depth
  {
    OneCost(Plain(e), parent, sel, depth, {})
  }

  lemma TreeCostCons(e: Env, parent: string, sel: Selection, rest: seq<Selection>, depth: int)
    ensures TreeCost(e, parent, [sel] + rest, depth) == Plus(TreeOne(e, parent, sel, depth), TreeCost(e, parent, rest, depth))
  {
  }

  // ---------------------------------------------------------------- counting spreads

  function OccOne(sel: Selection, x: string): nat {
    match sel
    case Field(_, _, _, sub) => Occ(sub, x)
    case Inline(_, sub) => Occ(sub, x)
    case Spread(n, _) => if n == x then 1 else 0
  }

  /** How often `x` is spread in the text of a selection set. */
  function Occ(sels: seq<Selection>, x: string): nat {
    if sels == [] then 0 else OccOne(sels[0], x) + Occ(sels[1..], x)
  }

  lemma OccHead(sels: seq<Selection>, x: string)
    requires sels != []
    ensures Occ(sels, x) == OccOne(sels[0], x) + Occ(sels[1..], x)
    ensures sels[0].Field? ==> Occ(sels[0].sub, x) <= Occ(sels, x)
    ensures sels[0].Inline? ==> Occ(sels[0].sels, x) <= Occ(sels, x)
    ensures sels[0].Spread? && sels[0].frag == x ==> Occ(sels, x) >= 1
  {
  }

  /** How often `x` is spread in the text of the fragments `a`. */
  ghost function Pool(frags: Fragments, a: set<string>, x: string): nat
    requires a <= frags.Keys
  {
    if a == {} then 0
    else
      var f :| f in a;
      Occ(frags[f], x) + Pool(frags, a - {f}, x)
  }

  lemma {:induction false} PoolRemove(frags: Fragments, a: set<string>, f: string, x: string)
    requires a <= frags.Keys && f in a
    ensures Pool(frags, a, x) == Occ(frags[f], x) + Pool(frags, a - {f}, x)
    decreases a
  {
    var g :| g in a && Pool(frags, a, x) == Occ(frags[g], x) + Pool(frags, a - {g}, x);
    if g != f {
      PoolRemove(frags, a - {g}, f, x);
      PoolRemove(frags, a - {f}, g, x);
      assert a - {g} - {f} == a - {f} - {g};
    }
  }

  /** Spreads of `x` in a selection set and in the fragments not yet seen. */
  ghost function Demand(frags: Fragments, sels: seq<Selection>, seen: set<string>, x: string): nat {
    Occ(sels, x) + Pool(frags, frags.Keys - seen, x)
  }

  /**
   In this selection set and the unseen fragments together, every fragment is
   spread at most once, and those already seen not at all.
   */
  ghost predicate Linear(frags: Fragments, sels: seq<Selection>, seen: set<string>) {
    && (forall x :: Demand(frags, sels, seen, x) <= 1)
    && (forall x :: x in seen ==> Demand(frags, sels, seen, x) == 0)
  }

  /** The fragments seen after a full traversal. */
  function SeenOne(frags: Fragments, sel: Selection, seen: set<string>): (r: set<string>)
    ensures seen <= r
    decreases Left(frags, seen), SelSize(sel), 0
  {
    match sel
    case Field(_, _, _, sub) => SeenAll(frags, sub, seen)
    case Inline(_, sub) => SeenAll(frags, sub, seen)
    case Spread(n, _) =>
      if n !in frags || n in seen then seen
      else
        LeftShrinks(frags, seen, n);
        SeenAll(frags, frags[n], seen + {n})
  }

  function SeenAll(frags: Fragments, sels: seq<Selection>, seen: set<string>): (r: set<string>)
    ensures seen <= r
    decreases Left(frags, seen), Size(sels), 1
  {
    if sels == [] then seen
    else
      var next := SeenOne(frags, sels[0], seen);
      LeftMonotone(frags, seen, next);
      SeenAll(frags, sels[1..], next)
  }

  function New(x: string, after: set<string>, before: set<string>): nat {
    if x in after && x !in before then 1 else 0
  }

  /** Every fragment newly seen consumed one spread of its name. */
  lemma {:induction false} SeenOneConserves(frags: Fragments, sel: Selection, seen: set<string>, x: string)
    ensures var after := SeenOne(frags, sel, seen);
            New(x, after, seen) + Pool(frags, frags.Keys - after, x) <= OccOne(sel, x) + Pool(frags, frags.Keys - seen, x)
    decreases Left(frags, seen), SelSize(sel), 0
  {
    match sel
    case Field(_, _, _, sub) => SeenConserves(frags, sub, seen, x);
    case Inline(_, sub) => SeenConserves(frags, sub, seen, x);
    case Spread(n, _) =>
      if n in frags && n !in seen {
        LeftShrinks(frags, seen, n);
        SeenConserves(frags, frags[n], seen + {n}, x);
        PoolRemove(frags, frags.Keys - seen, n, x);
        assert frags.Keys - (seen + {n}) == (frags.Keys - seen) - {n};
      }
  }

  lemma {:induction false} SeenConserves(frags: Fragments, sels: seq<Selection>, seen: set<string>, x: string)
    ensures var after := SeenAll(frags, sels, seen);
            New(x, after, seen) + Pool(frags, frags.Keys - after, x) <= Demand(frags, sels, seen, x)
    decreases Left(frags, seen), Size(sels), 1
  {
    if sels != [] {
      var next := SeenOne(frags, sels[0], seen);
      LeftMonotone(frags, seen, next);
      SeenOneConserves(frags, sels[0], seen, x);
      SeenConserves(frags, sels[1..], next, x);
    }
  }

  // ---------------------------------------------------------------- what linearity passes on

  lemma LinearRest(frags: Fragments, sels: seq<Selection>, seen: set<string>)
    requires sels != [] && Linear(frags, sels, seen)
    ensures Linear(frags, sels[1..], SeenOne(frags, sels[0], seen))
  {
    var next := SeenOne(frags, sels[0], seen);
    forall x ensures Demand(frags, sels[1..], next, x) <= 1
             ensures x in next ==> Demand(frags, sels[1..], next, x) == 0 {
      SeenOneConserves(frags, sels[0], seen, x);
      assert Demand(frags, sels, seen, x) <= 1;
    }
  }

  lemma LinearSub(frags: Fragments, sels: seq<Selection>, seen: set<string>, sub: seq<Selection>)
    requires sels != [] && Linear(frags, sels, seen)
    requires (sels[0].Field? && sub == sels[0].sub) || (sels[0].Inline? && sub == sels[0].sels)
    ensures Linear(frags, sub, seen)
  {
    forall x ensures Demand(frags, sub, seen, x) <= Demand(frags, sels, seen, x) {
      OccHead(sels, x);
    }
  }

  lemma LinearFragment(frags: Fragments, sels: seq<Selection>, seen: set<string>)
    requires sels != [] && sels[0].Spread? && sels[0].frag in frags && Linear(frags, sels, seen)
    ensures sels[0].frag !in seen
    ensures Linear(frags, frags[sels[0].frag], seen + {sels[0].frag})
  {
    var n := sels[0].frag;
    var body := frags[n];
    OccHead(sels, n);
    assert Demand(frags, sels, seen, n) >= 1;
    assert frags.Keys - (seen + {n}) == (frags.Keys - seen) - {n};
    forall x ensures Demand(frags, body, seen + {n}, x) + (if x == n then 1 else 0) <= Demand(frags, sels, seen, x) {
      OccHead(sels, x);
      PoolRemove(frags, frags.Keys - seen, n, x);
    }
  }

  // ---------------------------------------------------------------- exactness

  /** A document that spreads each fragment at most once has no reachable cycle. */
  lemma {:induction false} LinearIsAcyclic(frags: Fragments, sels: seq<Selection>, stack: set<string>, seen: set<string>)
    requires Linear(frags, sels, seen) && stack <= seen
    ensures Acyclic(frags, sels, stack)
    decreases Left(frags, seen), Size(sels)
  {
    if sels != [] {
      SizeParts(sels);
      match sels[0] {
        case Field(_, _, _, sub) =>
          LinearSub(frags, sels, seen, sub);
          LinearIsAcyclic(frags, sub, stack, seen);
        case Inline(_, sub) =>
          LinearSub(frags, sels, seen, sub);
          LinearIsAcyclic(frags, sub, stack, seen);
        case Spread(n, _) =>
          if n in frags {
            LinearFragment(frags, sels, seen);
            LeftShrinks(frags, seen, n);
            LinearIsAcyclic(frags, frags[n], stack + {n}, seen + {n});
          }
      }
      var next := SeenOne(frags, sels[0], seen);
      LeftMonotone(frags, seen, next);
      LinearRest(frags, sels, seen);
      LinearIsAcyclic(frags, sels[1..], stack, next);
    }
  }

  lemma {:induction false} LinearOneExact(e: Env, parent: string, sels: seq<Selection>, depth: int,
                                          visiting: set<string>, stack: set<string>, seen: set<string>)
    requires sels != [] && Linear(e.frags, sels, seen) && stack <= seen && visiting <= seen
    ensures OneCost(e, parent, sels[0], depth, visiting)
            == TreeOne(e, parent, InlinedOne(e.frags, sels[0], stack), depth)
    decreases Left(e.frags, seen), Size(sels), 0
  {
    SizeParts(sels);
    match sels[0]
    case Field(name, _, _, sub) =>
      if Costed(e.schema, parent, name) {
        var t := FieldsOf(e.schema, parent)[name];
        LinearSub(e.frags, sels, seen, sub);
        LinearExact(e, NamedType(t), sub, depth + 1, visiting, stack, seen);
      }
    case Inline(_, sub) =>
      LinearSub(e.frags, sels, seen, sub);
      LinearExact(e, parent, sub, depth, visiting, stack, seen);
    case Spread(n, _) =>
      if n in e.frags {
        LinearFragment(e.frags, sels, seen);
        LeftShrinks(e.frags, seen, n);
        LinearExact(e, parent, e.frags[n], depth, visiting + {n}, stack + {n}, seen + {n});
      } else {
        assert TreeCost(e, parent, [], depth) == QueryCost(0, depth);
      }
  }

  /** The analysis never meets a spread it already visited, so nothing is dropped. */
  lemma {:induction false} LinearExact(e: Env, parent: string, sels: seq<Selection>, depth: int,
                                       visiting: set<string>, stack: set<string>, seen: set<string>)
    requires Linear(e.frags, sels, seen) && stack <= seen && visiting <= seen
    ensures SelectionCost(e, parent, sels, depth, visiting)
            == TreeCost(e, parent, Inlined(e.frags, sels, stack), depth)
    decreases Left(e.frags, seen), Size(sels), 1
  {
    if sels != [] {
      SizeParts(sels);
      LinearOneExact(e, parent, sels, depth, visiting, stack, seen);
      var next := SeenOne(e.frags, sels[0], seen);
      LeftMonotone(e.frags, seen, next);
      LinearRest(e.frags, sels, seen);
      VisitedIsSeen(e.frags, sels[0], visiting, seen);
      LinearExact(e, parent, sels[1..], depth, After(e.frags, sels[0], visiting), stack, next);
      TreeCostCons(e, parent, InlinedOne(e.frags, sels[0], stack), Inlined(e.frags, sels[1..], stack), depth);
    }
  }

  lemma VisitedIsSeen(frags: Fragments, sel: Selection, visiting: set<string>, seen: set<string>)
    requires visiting <= seen
    ensures After(frags, sel, visiting) <= SeenOne(frags, sel, seen)
  {
  }

  /**
   Main result on inlining: for every selection set and set of fragments that
   spread each fragment at most once, in either text, the analysis returns the
   cost and depth of the inlined document, and no cycle is reachable.
   */
  lemma SpreadOnceIsExact(e: Env, parent: string, sels: seq<Selection>, depth: int)
    requires forall x :: Occ(sels, x) + Pool(e.frags, e.frags.Keys, x) <= 1
    ensures SelectionCost(e, parent, sels, depth, {}) == TreeCost(e, parent, Inlined(e.frags, sels, {}), depth)
    ensures Acyclic(e.frags, sels, {})
  {
    assert e.frags.Keys - {} == e.frags.Keys;
    forall x ensures Demand(e.frags, sels, {}, x) <= 1 {
      assert Occ(sels, x) + Pool(e.frags, e.frags.Keys, x) <= 1;
    }
    LinearExact(e, parent, sels, depth, {}, {}, {});
    LinearIsAcyclic(e.frags, sels, {}, {});
  }

  // ---------------------------------------------------------------- repeated spreads

  predicate AtMost(a: QueryCost, b: QueryCost) { a.cost <= b.cost && a.depth <= b.depth }

  lemma {:induction false} CostNonNegative(e: Env, parent: string, sels: seq<Selection>, depth: int, visiting: set<string>)
    requires e.multiplier >= 0
    ensures SelectionCost(e, parent, sels, depth, visiting).cost >= 0
    decreases Left(e.frags, visiting), Size(sels), 1
  {
    if sels != [] {
      SizeParts(sels);
      OneNonNegative(e, parent, sels[0], depth, visiting);
      CostNonNegative(e, parent, sels[1..], depth, After(e.frags, sels[0], visiting));
    }
  }

  lemma {:induction false} OneNonNegative(e: Env, parent: string, sel: Selection, depth: int, visiting: set<string>)
    requires e.multiplier >= 0
    ensures OneCost(e, parent, sel, depth, visiting).cost >= 0
    decreases Left(e.frags, visiting), SelSize(sel), 0
  {
    match sel
    case Field(name, _, _, sub) =>
      if Costed(e.schema, parent, name) {
        var t := FieldsOf(e.schema, parent)[name];
        CostNonNegative(e, NamedType(t), sub, depth + 1, visiting);
        MultiplyMonotone(0, SelectionCost(e, NamedType(t), sub, depth + 1, visiting).cost, Factor(t, e.multiplier));
      }
    case Inline(_, sub) => CostNonNegative(e, parent, sub, depth, visiting);
    case Spread(n, _) =>
      if n in e.frags && n !in visiting {
        LeftShrinks(e.frags, visiting, n);
        CostNonNegative(e, parent, e.frags[n], depth, visiting + {n});
      }
  }

  /** On every acyclic document the analysis never exceeds the inlined document. */
  lemma {:induction false} NeverOverestimates(e: Env, parent: string, sels: seq<Selection>, depth: int,
                                              visiting: set<string>, stack: set<string>)
    requires e.multiplier >= 0 && Acyclic(e.frags, sels, stack)
    ensures AtMost(SelectionCost(e, parent, sels, depth, visiting),
                   TreeCost(e, parent, Inlined(e.frags, sels, stack), depth))
    decreases Left(e.frags, stack), Size(sels), 1
  {
    if sels != [] {
      SizeParts(sels);
      OneNeverOver(e, parent, sels[0], depth, visiting, stack);
      NeverOverestimates(e, parent, sels[1..], depth, After(e.frags, sels[0], visiting), stack);
      TreeCostCons(e, parent, InlinedOne(e.frags, sels[0], stack), Inlined(e.frags, sels[1..], stack), depth);
    }
  }

  lemma {:induction false} OneNeverOver(e: Env, parent: string, sel: Selection, depth: int,
                                        visiting: set<string>, stack: set<string>)
    requires e.multiplier >= 0 && AcyclicOne(e.frags, sel, stack)
    ensures AtMost(OneCost(e, parent, sel, depth, visiting), TreeOne(e, parent, InlinedOne(e.frags, sel, stack), depth))
    decreases Left(e.frags, stack), SelSize(sel), 0
  {
    var tree := InlinedOne(e.frags, sel, stack);
    OneNonNegative(Plain(e), parent, tree, depth, {});
    match sel
    case Field(name, _, _, sub) =>
      if Costed(e.schema, parent, name) {
        var t := FieldsOf(e.schema, parent)[name];
        NeverOverestimates(e, NamedType(t), sub, depth + 1, visiting, stack);
        MultiplyMonotone(SelectionCost(e, NamedType(t), sub, depth + 1, visiting).cost,
                         TreeCost(e, NamedType(t), Inlined(e.frags, sub, stack), depth + 1).cost,
                         Factor(t, e.multiplier));
      }
    case Inline(_, sub) => NeverOverestimates(e, parent, sub, depth, visiting, stack);
    case Spread(n, _) =>
      if n in e.frags && n !in visiting {
        LeftShrinks(e.frags, stack, n);
        NeverOverestimates(e, parent, e.frags[n], depth, visiting + {n}, stack + {n});
      }
  }

  lemma MultiplyMonotone(a: int, b: int, f: int)
    requires a <= b && f >= 0
    ensures a * f <= b * f
  {
  }

  /**
   It can fall short.  In { ...F  a { ...F } } the second spread costs nothing,
   whatever F is, while the inlined document pays for F again below `a`.
   */
  lemma RepeatedSpreadIsCostedOnce(e: Env, parent: string, n: string, name: string, depth: int)
    requires n in e.frags && Costed(e.schema, parent, name)
    requires IsObject(e.schema, NamedType(FieldsOf(e.schema, parent)[name]))
    ensures var q := [Spread(n, ""), Field(name, name, "", [Spread(n, "")])];
            var t := FieldsOf(e.schema, parent)[name];
            var f := Inlined(e.frags, e.frags[n], {n});
            && SelectionCost(e, parent, q, depth, {}).cost
               == SelectionCost(e, parent, e.frags[n], depth, {n}).cost + 1
            && TreeCost(e, parent, Inlined(e.frags, q, {}), depth).cost
               == TreeCost(e, parent, f, depth).cost
                  + 1 + TreeCost(e, NamedType(t), f, depth + 1).cost * Factor(t, e.multiplier)
  {
    var spread := Spread(n, "");
    var a := Field(name, name, "", [spread]);
    var t := FieldsOf(e.schema, parent)[name];
    SingleSelection(e, NamedType(t), spread, depth + 1, {n});
    SingleSelection(e, parent, a, depth, {n});
    assert {} + {n} == {n};
    assert [spread, a][1..] == [a];
    assert SelectionCost(e, parent, [spread, a], depth, {}).cost
           == SelectionCost(e, parent, e.frags[n], depth, {n}).cost + 1;
    RepeatedSpreadInlined(e, parent, n, name, depth);
  }

  lemma SingleSelection(e: Env, parent: string, sel: Selection, depth: int, visiting: set<string>)
    ensures SelectionCost(e, parent, [sel], depth, visiting) == OneCost(e, parent, sel, depth, visiting)
  {
  }

  lemma RepeatedSpreadInlined(e: Env, parent: string, n: string, name: string, depth: int)
    requires n in e.frags && Costed(e.schema, parent, name)
    requires IsObject(e.schema, NamedType(FieldsOf(e.schema, parent)[name]))
    ensures var q := [Spread(n, ""), Field(name, name, "", [Spread(n, "")])];
            var t := FieldsOf(e.schema, parent)[name];
            var f := Inlined(e.frags, e.frags[n], {n});
            TreeCost(e, parent, Inlined(e.frags, q, {}), depth).cost
            == TreeCost(e, parent, f, depth).cost
               + 1 + TreeCost(e, NamedType(t), f, depth + 1).cost * Factor(t, e.multiplier)
  {
    var spread := Spread(n, "");
    var a := Field(name, name, "", [spread]);
    var t := FieldsOf(e.schema, parent)[name];
    assert {} + {n} == {n};
    var block := InlinedOne(e.frags, spread, {});
    assert block == Inline("", Inlined(e.frags, e.frags[n], {n}));
    assert [spread][1..] == [] && [a][1..] == [] && [spread, a][1..] == [a];
    assert Inlined(e.frags, [spread], {}) == [block];
    var a' := Field(name, name, "", [block]);
    assert InlinedOne(e.frags, a, {}) == a';
    assert Inlined(e.frags, [a], {}) == [a'];
    assert Inlined(e.frags, [spread, a], {}) == [block] + [a'];
    TreeCostCons(e, parent, block, [a'], depth);
    SingleSelection(Plain(e), parent, a', depth, {});
    SingleSelection(Plain(e), NamedType(t), block, depth + 1, {});
  }
}

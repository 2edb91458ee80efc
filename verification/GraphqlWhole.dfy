/**
 Exactly when the cost analysis agrees with the inlined document.  A spread
 whose fragment is already in `visiting` is skipped; the cost is right if and
 only if nothing is ever skipped that would have cost something, and the depth
 if and only if nothing is skipped that reaches deeper than the rest.
 */
module GraphqlWhole {
  import opened GraphqlSyntax
  import opened GraphqlCost
  import opened GraphqlInlining

  // ---------------------------------------------------------------- cost

  /** No field of an inlined selection set is costed on `parent`. */
  predicate Barren(s: Schema, parent: string, tree: seq<Selection>) {
    tree == [] || (BarrenOne(s, parent, tree[0]) && Barren(s, parent, tree[1..]))
  }

  predicate BarrenOne(s: Schema, parent: string, sel: Selection) {
    match sel
    case Field(name, _, _, _) => !Costed(s, parent, name)
    case Inline(_, sub) => Barren(s, parent, sub)
    case Spread(_, _) => true
  }

  lemma {:induction false} BarrenIsFree(e: Env, parent: string, tree: seq<Selection>, depth: int)
    requires e.multiplier >= 0
    ensures TreeCost(e, parent, tree, depth).cost == 0 <==> Barren(e.schema, parent, tree)
    decreases Size(tree), 1
  {
    if tree != [] {
      SizeParts(tree);
      BarrenOneIsFree(e, parent, tree[0], depth);
      BarrenIsFree(e, parent, tree[1..], depth);
      OneNonNegative(Plain(e), parent, tree[0], depth, {});
      CostNonNegative(Plain(e), parent, tree[1..], depth, {});
      assert tree == [tree[0]] + tree[1..];
      TreeCostCons(e, parent, tree[0], tree[1..], depth);
    }
  }

  lemma {:induction false} BarrenOneIsFree(e: Env, parent: string, sel: Selection, depth: int)
    requires e.multiplier >= 0
    ensures TreeOne(e, parent, sel, depth).cost == 0 <==> BarrenOne(e.schema, parent, sel)
    decreases SelSize(sel), 0
  {
    match sel
    case Field(name, _, _, sub) =>
      if Costed(e.schema, parent, name) {
        var t := FieldsOf(e.schema, parent)[name];
        CostNonNegative(Plain(e), NamedType(t), sub, depth + 1, {});
        MultiplyMonotone(0, TreeCost(e, NamedType(t), sub, depth + 1).cost, Factor(t, e.multiplier));
      }
    case Inline(_, sub) => BarrenIsFree(e, parent, sub, depth);
    case Spread(_, _) =>
  }

  /** Following the analysis: every spread it skips is barren. */
  predicate Whole(e: Env, parent: string, sels: seq<Selection>, visiting: set<string>, stack: set<string>)
    decreases Left(e.frags, visiting), Size(sels), 1
  {
    sels == [] || (
      WholeOne(e, parent, sels[0], visiting, stack)
      && Whole(e, parent, sels[1..], After(e.frags, sels[0], visiting), stack))
  }

  predicate WholeOne(e: Env, parent: string, sel: Selection, visiting: set<string>, stack: set<string>)
    decreases Left(e.frags, visiting), SelSize(sel), 0
  {
    match sel
    case Field(name, _, _, sub) =>
      Costed(e.schema, parent, name) && IsObject(e.schema, NamedType(FieldsOf(e.schema, parent)[name])) ==>
        Whole(e, NamedType(FieldsOf(e.schema, parent)[name]), sub, visiting, stack)
    case Inline(_, sub) => Whole(e, parent, sub, visiting, stack)
    case Spread(n, _) =>
      n in e.frags ==>
        if n in visiting then Barren(e.schema, parent, Inlined(e.frags, e.frags[n], stack + {n}))
        else (LeftShrinks(e.frags, visiting, n); Whole(e, parent, e.frags[n], visiting + {n}, stack + {n}))
  }

  lemma EqualProducts(a: int, b: int, f: int)
    requires f >= 1
    ensures a * f == b * f <==> a == b
  {
    if a < b {
      MultiplyMonotone(a + 1, b, f);
    } else if b < a {
      MultiplyMonotone(b + 1, a, f);
    }
  }

  /** Does the analysis look below this field? */
  predicate Opens(s: Schema, parent: string, f: Selection) {
    f.Field? && Costed(s, parent, f.name) && f.sub != [] && IsObject(s, NamedType(FieldsOf(s, parent)[f.name]))
  }

  /** A field, in the document and inlined. */
  lemma FieldBothWays(e: Env, parent: string, f: Selection, depth: int, visiting: set<string>, stack: set<string>)
    requires f.Field?
    ensures var (one, tree) := (OneCost(e, parent, f, depth, visiting), TreeOne(e, parent, InlinedOne(e.frags, f, stack), depth));
      if Opens(e.schema, parent, f) then
        var t := FieldsOf(e.schema, parent)[f.name];
        && one == FieldPlus(t, e.multiplier, depth, SelectionCost(e, NamedType(t), f.sub, depth + 1, visiting))
        && tree == FieldPlus(t, e.multiplier, depth, TreeCost(e, NamedType(t), Inlined(e.frags, f.sub, stack), depth + 1))
      else one == tree
  {
    hide SelectionCost, Inlined;
  }

  /** A spread of a known fragment, in the document and inlined. */
  lemma SpreadBothWays(e: Env, parent: string, n: string, meta: string, depth: int, visiting: set<string>, stack: set<string>)
    requires n in e.frags && n !in stack
    ensures TreeOne(e, parent, InlinedOne(e.frags, Spread(n, meta), stack), depth)
         == TreeCost(e, parent, Inlined(e.frags, e.frags[n], stack + {n}), depth)
    ensures OneCost(e, parent, Spread(n, meta), depth, visiting)
         == if n in visiting then QueryCost(0, depth) else SelectionCost(e, parent, e.frags[n], depth, visiting + {n})
  {
    hide SelectionCost, Inlined;
  }

  lemma UnknownSpread(e: Env, parent: string, n: string, meta: string, depth: int, visiting: set<string>, stack: set<string>)
    requires n !in e.frags
    ensures TreeOne(e, parent, InlinedOne(e.frags, Spread(n, meta), stack), depth) == QueryCost(0, depth)
    ensures OneCost(e, parent, Spread(n, meta), depth, visiting) == QueryCost(0, depth)
  {
    assert TreeCost(e, parent, [], depth) == QueryCost(0, depth);
  }

  /** On acyclic documents the cost is that of the inlined document if and only if it is whole. */
  lemma {:induction false} CostExactIffWhole(e: Env, parent: string, sels: seq<Selection>, depth: int,
                                             visiting: set<string>, stack: set<string>)
    requires e.multiplier >= 1 && Acyclic(e.frags, sels, stack)
    ensures SelectionCost(e, parent, sels, depth, visiting).cost == TreeCost(e, parent, Inlined(e.frags, sels, stack), depth).cost
      <==> Whole(e, parent, sels, visiting, stack)
    decreases Left(e.frags, visiting), Size(sels), 1
  {
    if sels != [] {
      SizeParts(sels);
      var rest := After(e.frags, sels[0], visiting);
      OneExactIffWhole(e, parent, sels[0], depth, visiting, stack);
      CostExactIffWhole(e, parent, sels[1..], depth, rest, stack);
      OneNeverOver(e, parent, sels[0], depth, visiting, stack);
      NeverOverestimates(e, parent, sels[1..], depth, rest, stack);
      TreeCostCons(e, parent, InlinedOne(e.frags, sels[0], stack), Inlined(e.frags, sels[1..], stack), depth);
    }
  }

  lemma {:induction false} OneExactIffWhole(e: Env, parent: string, sel: Selection, depth: int,
                                            visiting: set<string>, stack: set<string>)
    requires e.multiplier >= 1 && AcyclicOne(e.frags, sel, stack)
    ensures OneCost(e, parent, sel, depth, visiting).cost == TreeOne(e, parent, InlinedOne(e.frags, sel, stack), depth).cost
      <==> WholeOne(e, parent, sel, visiting, stack)
    decreases Left(e.frags, visiting), SelSize(sel), 0
  {
    match sel
    case Field(name, _, _, sub) =>
      FieldBothWays(e, parent, sel, depth, visiting, stack);
      assert Whole(e, parent, [], visiting, stack);
      if Opens(e.schema, parent, sel) {
        hide OneCost, SelectionCost, Whole, Inlined, InlinedOne, Acyclic;
        var t := FieldsOf(e.schema, parent)[name];
        CostExactIffWhole(e, NamedType(t), sub, depth + 1, visiting, stack);
        EqualProducts(SelectionCost(e, NamedType(t), sub, depth + 1, visiting).cost,
                      TreeCost(e, NamedType(t), Inlined(e.frags, sub, stack), depth + 1).cost, Factor(t, e.multiplier));
      }
    case Inline(_, sub) => CostExactIffWhole(e, parent, sub, depth, visiting, stack);
    case Spread(n, meta) =>
      if n in e.frags {
        SpreadBothWays(e, parent, n, meta, depth, visiting, stack);
        hide OneCost, SelectionCost, Whole, Inlined, InlinedOne, Acyclic, Barren;
        if n in visiting {
          BarrenIsFree(e, parent, Inlined(e.frags, e.frags[n], stack + {n}), depth);
        } else {
          LeftShrinks(e.frags, visiting, n);
          CostExactIffWhole(e, parent, e.frags[n], depth, visiting + {n}, stack + {n});
        }
      } else {
        UnknownSpread(e, parent, n, meta, depth, visiting, stack);
      }
  }

  // ---------------------------------------------------------------- depth

  /** Following the analysis: no spread it skips reaches deeper than `limit`. */
  predicate Shallow(e: Env, parent: string, sels: seq<Selection>, depth: int, visiting: set<string>, stack: set<string>, limit: int)
    decreases Left(e.frags, visiting), Size(sels), 1
  {
    sels == [] || (
      ShallowOne(e, parent, sels[0], depth, visiting, stack, limit)
      && Shallow(e, parent, sels[1..], depth, After(e.frags, sels[0], visiting), stack, limit))
  }

  predicate ShallowOne(e: Env, parent: string, sel: Selection, depth: int, visiting: set<string>, stack: set<string>, limit: int)
    decreases Left(e.frags, visiting), SelSize(sel), 0
  {
    match sel
    case Field(name, _, _, sub) =>
      Costed(e.schema, parent, name) && IsObject(e.schema, NamedType(FieldsOf(e.schema, parent)[name])) ==>
        Shallow(e, NamedType(FieldsOf(e.schema, parent)[name]), sub, depth + 1, visiting, stack, limit)
    case Inline(_, sub) => Shallow(e, parent, sub, depth, visiting, stack, limit)
    case Spread(n, _) =>
      n in e.frags ==>
        if n in visiting then TreeCost(e, parent, Inlined(e.frags, e.frags[n], stack + {n}), depth).depth <= limit
        else (LeftShrinks(e.frags, visiting, n); Shallow(e, parent, e.frags[n], depth, visiting + {n}, stack + {n}, limit))
  }

  lemma {:induction false} DepthWithinIffShallow(e: Env, parent: string, sels: seq<Selection>, depth: int,
                                                 visiting: set<string>, stack: set<string>, limit: int)
    requires Acyclic(e.frags, sels, stack) && SelectionCost(e, parent, sels, depth, visiting).depth <= limit
    ensures TreeCost(e, parent, Inlined(e.frags, sels, stack), depth).depth <= limit
      <==> Shallow(e, parent, sels, depth, visiting, stack, limit)
    decreases Left(e.frags, visiting), Size(sels), 1
  {
    if sels != [] {
      SizeParts(sels);
      OneWithinIffShallow(e, parent, sels[0], depth, visiting, stack, limit);
      DepthWithinIffShallow(e, parent, sels[1..], depth, After(e.frags, sels[0], visiting), stack, limit);
      TreeCostCons(e, parent, InlinedOne(e.frags, sels[0], stack), Inlined(e.frags, sels[1..], stack), depth);
    }
  }

  lemma {:induction false} OneWithinIffShallow(e: Env, parent: string, sel: Selection, depth: int,
                                               visiting: set<string>, stack: set<string>, limit: int)
    requires AcyclicOne(e.frags, sel, stack) && OneCost(e, parent, sel, depth, visiting).depth <= limit
    ensures TreeOne(e, parent, InlinedOne(e.frags, sel, stack), depth).depth <= limit
      <==> ShallowOne(e, parent, sel, depth, visiting, stack, limit)
    decreases Left(e.frags, visiting), SelSize(sel), 0
  {
    match sel
    case Field(name, _, _, sub) =>
      FieldBothWays(e, parent, sel, depth, visiting, stack);
      if Opens(e.schema, parent, sel) {
        hide OneCost, SelectionCost, Shallow, Inlined, InlinedOne, Acyclic;
        DepthWithinIffShallow(e, NamedType(FieldsOf(e.schema, parent)[name]), sub, depth + 1, visiting, stack, limit);
      }
    case Inline(_, sub) => DepthWithinIffShallow(e, parent, sub, depth, visiting, stack, limit);
    case Spread(n, meta) =>
      if n in e.frags {
        SpreadBothWays(e, parent, n, meta, depth, visiting, stack);
        hide OneCost, SelectionCost, Shallow, Inlined, InlinedOne, Acyclic;
        if n !in visiting {
          LeftShrinks(e.frags, visiting, n);
          DepthWithinIffShallow(e, parent, e.frags[n], depth, visiting + {n}, stack + {n}, limit);
        }
      } else {
        UnknownSpread(e, parent, n, meta, depth, visiting, stack);
      }
  }

  // ---------------------------------------------------------------- whole documents

  /** Cost and depth of the analysis are those of the inlined document. */
  ghost predicate WholeDocument(e: Env, parent: string, sels: seq<Selection>, depth: int) {
    && Whole(e, parent, sels, {}, {})
    && Shallow(e, parent, sels, depth, {}, {}, SelectionCost(e, parent, sels, depth, {}).depth)
  }

  /**
   Main result on inlining, for every acyclic document: the analysis returns
   the cost and depth of the inlined document if and only if no spread it skips
   is costed or reaches deeper than everything it counted.
   */
  lemma ExactIffWhole(e: Env, parent: string, sels: seq<Selection>, depth: int)
    requires e.multiplier >= 1 && Acyclic(e.frags, sels, {})
    ensures SelectionCost(e, parent, sels, depth, {}) == TreeCost(e, parent, Inlined(e.frags, sels, {}), depth)
      <==> WholeDocument(e, parent, sels, depth)
  {
    var said := SelectionCost(e, parent, sels, depth, {});
    CostExactIffWhole(e, parent, sels, depth, {}, {});
    DepthWithinIffShallow(e, parent, sels, depth, {}, {}, said.depth);
    NeverOverestimates(e, parent, sels, depth, {}, {});
  }

  /** Spreading each fragment at most once is one way to be whole. */
  lemma SpreadOnceIsWhole(e: Env, parent: string, sels: seq<Selection>, depth: int)
    requires e.multiplier >= 1 && forall x :: Occ(sels, x) + Pool(e.frags, e.frags.Keys, x) <= 1
    ensures Acyclic(e.frags, sels, {}) && WholeDocument(e, parent, sels, depth)
  {
    SpreadOnceIsExact(e, parent, sels, depth);
    ExactIffWhole(e, parent, sels, depth);
  }

  /** It is not the only one: { a { ...F } b { ...F } } is costed in full for every F that is whole itself. */
  lemma SiblingSpreadsAreWhole(e: Env, parent: string, n: string, a: Selection, b: Selection)
    requires n in e.frags
    requires a.Field? && b.Field? && a.sub == b.sub == [Spread(n, "")]
    requires Opens(e.schema, parent, a) && Opens(e.schema, parent, b)
    requires forall t :: Whole(e, t, e.frags[n], {n}, {n})
    ensures Occ([a, b], n) == 2 && Whole(e, parent, [a, b], {}, {})
  {
    var one := [Spread(n, "")];
    assert one[1..] == [] && [a, b][1..] == [b] && [b][1..] == [];
    assert {} + {n} == {n};
    forall t ensures Whole(e, t, one, {}, {}) {
      assert WholeOne(e, t, one[0], {}, {});
    }
    FieldOcc(a, n);
    FieldOcc(b, n);
    assert Occ([b], n) == OccOne(b, n) + Occ([], n);
    assert Whole(e, NamedType(FieldsOf(e.schema, parent)[a.name]), a.sub, {}, {});
    assert Whole(e, NamedType(FieldsOf(e.schema, parent)[b.name]), b.sub, {}, {});
    hide Barren, Inlined;
    assert WholeOne(e, parent, a, {}, {}) && WholeOne(e, parent, b, {}, {});
    assert Whole(e, parent, [b], {}, {}) == WholeOne(e, parent, b, {}, {});
  }

  lemma FieldOcc(f: Selection, n: string)
    requires f.Field? && f.sub == [Spread(n, "")]
    ensures OccOne(f, n) == 1
  {
    var one := [Spread(n, "")];
    assert one[1..] == [] && Occ(one, n) == OccOne(one[0], n) + Occ([], n);
    assert OccOne(f, n) == Occ(f.sub, n);
  }
}

/**
 The static cost bounds every execution.
 */
module GraphqlBound {
  import opened Wrappers
  import opened GraphqlSyntax
  import opened GraphqlCost
  import opened GraphqlInlining
  import opened GraphqlExecution
  import opened GraphqlWhole

  // ---------------------------------------------------------------- concatenation

  function Tree(e: Env, sels: seq<Selection>): seq<Selection> { Inlined(e.frags, sels, {}) }

  /** Static cost of a selection set with everything inlined. */
  function Full(e: Env, typ: string, sels: seq<Selection>, depth: int): (c: QueryCost)
    ensures c.depth >= depth
  {
    TreeCost(e, typ, Tree(e, sels), depth)
  }

  lemma {:induction false} InlinedAppend(frags: Fragments, a: seq<Selection>, b: seq<Selection>, stack: set<string>)
    ensures Inlined(frags, a + b, stack) == Inlined(frags, a, stack) + Inlined(frags, b, stack)
    decreases |a|
  {
    if a == [] {
      assert a + b == b;
    } else {
      assert (a + b)[1..] == a[1..] + b;
      InlinedAppend(frags, a[1..], b, stack);
    }
  }

  lemma {:induction false} TreeCostAppend(e: Env, typ: string, a: seq<Selection>, b: seq<Selection>, depth: int)
    ensures TreeCost(e, typ, a + b, depth) == Plus(TreeCost(e, typ, a, depth), TreeCost(e, typ, b, depth))
    decreases |a|
  {
    if a == [] {
      assert a + b == b;
    } else {
      TreeCostAppend(e, typ, a[1..], b, depth);
      TreeCostCons(e, typ, a[0], a[1..] + b, depth);
      TreeCostCons(e, typ, a[0], a[1..], depth);
      assert [a[0]] + (a[1..] + b) == a + b && [a[0]] + a[1..] == a;
    }
  }

  lemma FullAppend(e: Env, typ: string, a: seq<Selection>, b: seq<Selection>, depth: int)
    ensures Full(e, typ, a + b, depth) == Plus(Full(e, typ, a, depth), Full(e, typ, b, depth))
  {
    InlinedAppend(e.frags, a, b, {});
    TreeCostAppend(e, typ, Tree(e, a), Tree(e, b), depth);
  }

  lemma FullCons(e: Env, typ: string, sels: seq<Selection>, depth: int)
    requires sels != []
    ensures Full(e, typ, sels, depth)
            == Plus(TreeOne(e, typ, InlinedOne(e.frags, sels[0], {}), depth), Full(e, typ, sels[1..], depth))
  {
  }

  lemma FullNonNegative(e: Env, typ: string, sels: seq<Selection>, depth: int)
    requires e.multiplier >= 0
    ensures Full(e, typ, sels, depth).cost >= 0
  {
    CostNonNegative(Plain(e), typ, Tree(e, sels), depth, {});
  }

  lemma {:induction false} AcyclicAppend(frags: Fragments, a: seq<Selection>, b: seq<Selection>)
    requires Acyclic(frags, a, {}) && Acyclic(frags, b, {})
    ensures Acyclic(frags, a + b, {})
    decreases |a|
  {
    if a == [] {
      assert a + b == b;
    } else {
      assert (a + b)[1..] == a[1..] + b;
      AcyclicAppend(frags, a[1..], b);
    }
  }

  /** On acyclic selections the expansion stack does not matter. */
  lemma {:induction false} StackIrrelevant(frags: Fragments, sels: seq<Selection>, stack: set<string>, less: set<string>)
    requires Acyclic(frags, sels, stack) && less <= stack
    ensures Acyclic(frags, sels, less) && Inlined(frags, sels, stack) == Inlined(frags, sels, less)
    decreases Left(frags, stack), Size(sels), 1
  {
    if sels != [] {
      SizeParts(sels);
      OneStackIrrelevant(frags, sels[0], stack, less);
      StackIrrelevant(frags, sels[1..], stack, less);
    }
  }

  lemma {:induction false} OneStackIrrelevant(frags: Fragments, sel: Selection, stack: set<string>, less: set<string>)
    requires AcyclicOne(frags, sel, stack) && less <= stack
    ensures AcyclicOne(frags, sel, less) && InlinedOne(frags, sel, stack) == InlinedOne(frags, sel, less)
    decreases Left(frags, stack), SelSize(sel), 0
  {
    match sel
    case Field(_, _, _, sub) => StackIrrelevant(frags, sub, stack, less);
    case Inline(_, sub) => StackIrrelevant(frags, sub, stack, less);
    case Spread(n, _) =>
      if n in frags {
        LeftShrinks(frags, stack, n);
        StackIrrelevant(frags, frags[n], stack + {n}, less + {n});
      }
  }

  // ---------------------------------------------------------------- collecting loses cost only

  /** The collected fields, executed apart from their fragments, cost no more than the selection set. */
  lemma {:induction false} CollectBound(e: Env, keep: Keep, typ: string, sels: seq<Selection>, visited: set<string>,
                                        stack: set<string>, depth: int)
    requires e.multiplier >= 0 && Acyclic(e.frags, sels, stack)
    ensures var fs := Collect(e.frags, keep, typ, sels, visited).0;
            && Acyclic(e.frags, fs, {})
            && AtMost(Full(e, typ, fs, depth), TreeCost(e, typ, Inlined(e.frags, sels, stack), depth))
    decreases Left(e.frags, visited), Size(sels), 1
  {
    if sels != [] {
      SizeParts(sels);
      var (fs, v1) := CollectOne(e.frags, keep, typ, sels[0], visited);
      LeftMonotone(e.frags, visited, v1);
      var gs := Collect(e.frags, keep, typ, sels[1..], v1).0;
      CollectOneBound(e, keep, typ, sels[0], visited, stack, depth);
      CollectBound(e, keep, typ, sels[1..], v1, stack, depth);
      AcyclicAppend(e.frags, fs, gs);
      FullAppend(e, typ, fs, gs, depth);
      InlinedCost(e, typ, sels, stack, depth);
    }
  }

  lemma InlinedCost(e: Env, typ: string, sels: seq<Selection>, stack: set<string>, depth: int)
    requires sels != []
    ensures TreeCost(e, typ, Inlined(e.frags, sels, stack), depth)
            == Plus(TreeOne(e, typ, InlinedOne(e.frags, sels[0], stack), depth),
                    TreeCost(e, typ, Inlined(e.frags, sels[1..], stack), depth))
  {
  }

  lemma {:induction false} CollectOneBound(e: Env, keep: Keep, typ: string, sel: Selection, visited: set<string>,
                                           stack: set<string>, depth: int)
    requires e.multiplier >= 0 && AcyclicOne(e.frags, sel, stack)
    ensures var fs := CollectOne(e.frags, keep, typ, sel, visited).0;
            && Acyclic(e.frags, fs, {})
            && AtMost(Full(e, typ, fs, depth), TreeOne(e, typ, InlinedOne(e.frags, sel, stack), depth))
    decreases Left(e.frags, visited), SelSize(sel), 0
  {
    OneNonNegative(Plain(e), typ, InlinedOne(e.frags, sel, stack), depth, {});
    if keep(typ, sel) {
      match sel
      case Field(_, _, _, _) =>
        OneStackIrrelevant(e.frags, sel, stack, {});
        FullCons(e, typ, [sel], depth);
        assert [sel][1..] == [];
      case Inline(_, sub) => CollectBound(e, keep, typ, sub, visited, stack, depth);
      case Spread(n, _) =>
        if n in e.frags && n !in visited {
          LeftShrinks(e.frags, visited, n);
          CollectBound(e, keep, typ, e.frags[n], visited + {n}, stack + {n}, depth);
        }
    }
  }

  // ---------------------------------------------------------------- grouping loses cost only

  lemma {:induction false} GroupsPartition(e: Env, typ: string, f: Selection, fs: seq<Selection>, depth: int)
    requires f.Field? && AllFields(fs)
    ensures Full(e, typ, fs, depth)
            == Plus(Full(e, typ, GroupOf(f, fs), depth), Full(e, typ, Others(f, fs), depth))
    decreases |fs|
  {
    if fs != [] {
      var (g, o) := (GroupOf(f, fs[1..]), Others(f, fs[1..]));
      GroupsPartition(e, typ, f, fs[1..], depth);
      FullCons(e, typ, fs, depth);
      if SameGroup(f, fs[0]) {
        assert GroupOf(f, fs) == [fs[0]] + g && Others(f, fs) == o;
        FullPrepend(e, typ, fs[0], g, depth);
      } else {
        assert GroupOf(f, fs) == g && Others(f, fs) == [fs[0]] + o;
        FullPrepend(e, typ, fs[0], o, depth);
      }
    }
  }

  lemma FullPrepend(e: Env, typ: string, f: Selection, fs: seq<Selection>, depth: int)
    ensures Full(e, typ, [f] + fs, depth)
            == Plus(TreeOne(e, typ, InlinedOne(e.frags, f, {}), depth), Full(e, typ, fs, depth))
  {
  }

  lemma {:induction false} GroupsAcyclic(frags: Fragments, f: Selection, fs: seq<Selection>)
    requires f.Field? && AllFields(fs) && Acyclic(frags, fs, {})
    ensures Acyclic(frags, GroupOf(f, fs), {}) && Acyclic(frags, Others(f, fs), {})
    decreases |fs|
  {
    if fs != [] {
      GroupsAcyclic(frags, f, fs[1..]);
      var one := [fs[0]];
      assert one[1..] == [];
      if SameGroup(f, fs[0]) {
        assert GroupOf(f, fs) == one + GroupOf(f, fs[1..]) && Others(f, fs) == Others(f, fs[1..]);
        AcyclicAppend(frags, one, GroupOf(f, fs[1..]));
      } else {
        assert GroupOf(f, fs) == GroupOf(f, fs[1..]) && Others(f, fs) == one + Others(f, fs[1..]);
        AcyclicAppend(frags, one, Others(f, fs[1..]));
      }
    }
  }

  /** Fields of one name cost one each, plus the fan-out of their merged sub-selection. */
  lemma {:induction false} GroupCost(e: Env, typ: string, group: seq<Selection>, name: string, depth: int)
    requires AllFields(group) && Costed(e.schema, typ, name) && Acyclic(e.frags, group, {})
    requires forall i :: 0 <= i < |group| ==> group[i].name == name
    requires IsObject(e.schema, NamedType(FieldsOf(e.schema, typ)[name]))
    ensures Acyclic(e.frags, Merged(group), {})
    ensures var t := FieldsOf(e.schema, typ)[name];
            var sub := Full(e, NamedType(t), Merged(group), depth + 1);
            var all := Full(e, typ, group, depth);
            && all.cost == |group| + sub.cost * Factor(t, e.multiplier)
            && (Merged(group) != [] ==> sub.depth <= all.depth)
    decreases |group|
  {
    var t := FieldsOf(e.schema, typ)[name];
    if group != [] {
      GroupCost(e, typ, group[1..], name, depth);
      var sub := group[0].sub;
      AcyclicAppend(e.frags, sub, Merged(group[1..]));
      FullAppend(e, NamedType(t), sub, Merged(group[1..]), depth + 1);
      FullCons(e, typ, group, depth);
      var one := TreeOne(e, typ, InlinedOne(e.frags, group[0], {}), depth);
      FieldTree(e, typ, group[0], depth);
      var c, d := Full(e, NamedType(t), sub, depth + 1), Full(e, NamedType(t), Merged(group[1..]), depth + 1);
      Distribute(c.cost, d.cost, Factor(t, e.multiplier));
      MergedDepth(e, NamedType(t), sub, Merged(group[1..]), depth + 1);
    } else {
      assert Full(e, NamedType(t), [], depth + 1).cost == 0;
    }
  }

  /** An empty half of a merged selection set does not deepen it. */
  lemma MergedDepth(e: Env, typ: string, a: seq<Selection>, b: seq<Selection>, depth: int)
    ensures a == [] ==> Full(e, typ, a + b, depth) == Full(e, typ, b, depth)
    ensures b == [] ==> Full(e, typ, a + b, depth) == Full(e, typ, a, depth)
  {
    if a == [] {
      assert a + b == b;
    }
    if b == [] {
      assert a + b == a;
    }
  }

  lemma Distribute(a: int, b: int, f: int)
    ensures (a + b) * f == a * f + b * f
  {
  }

  lemma FieldTree(e: Env, typ: string, f: Selection, depth: int)
    requires f.Field? && Costed(e.schema, typ, f.name)
    requires IsObject(e.schema, NamedType(FieldsOf(e.schema, typ)[f.name]))
    ensures var t := FieldsOf(e.schema, typ)[f.name];
            var sub := Full(e, NamedType(t), f.sub, depth + 1);
            var one := TreeOne(e, typ, InlinedOne(e.frags, f, {}), depth);
            && one.cost == 1 + sub.cost * Factor(t, e.multiplier)
            && (f.sub != [] ==> one.depth == sub.depth)
  {
  }

  // ---------------------------------------------------------------- values

  predicate WellFormedRef(t: TypeRef) {
    match t
    case Named(_) => true
    case ListOf(u) => WellFormedRef(u)
    case NonNull(u) => !u.NonNull? && WellFormedRef(u)
  }

  /** Every field's type is built from an object or a leaf type. */
  ghost predicate ObjectSchema(s: Schema) {
    forall typ, f :: f in FieldsOf(s, typ) ==>
      var t := FieldsOf(s, typ)[f];
      WellFormedRef(t) && (NamedType(t) in s ==> !s[NamedType(t)].AbstractType?)
  }

  /** No field of any object holds more than `m` objects, in whatever nesting of lists. */
  predicate FanOut(v: Value, m: int) {
    match v
    case Items(vs) => forall i :: 0 <= i < |vs| ==> FanOut(vs[i], m)
    case Object(_, es) => forall i :: 0 <= i < |es| ==> |Below(es[i].value)| <= m && FanOut(es[i].value, m)
    case _ => true
  }

  lemma {:induction false} FanOutLookup(es: seq<Entry>, key: string, m: int)
    requires m >= 0 && forall i :: 0 <= i < |es| ==> |Below(es[i].value)| <= m && FanOut(es[i].value, m)
    ensures FanOut(Lookup(es, key), m) && |Below(Lookup(es, key))| <= m
  {
    if es != [] && es[0].key != key {
      FanOutLookup(es[1..], key, m);
    }
  }

  lemma {:induction false} ObjectsBound(t: TypeRef, v: Value, m: int)
    requires FanOut(v, m)
    ensures forall i :: 0 <= i < |Objects(t, v)| ==> FanOut(Objects(t, v)[i], m)
    ensures |Objects(t, v)| <= |Below(v)|
    ensures WellFormedRef(t) && !IsList(t) ==> |Objects(t, v)| <= 1
    decreases t, 0, 0
  {
    match t
    case Named(_) =>
    case NonNull(u) => ObjectsBound(u, v, m);
    case ListOf(u) =>
      if v.Items? {
        ObjectsInBound(t, u, v, v.items, m);
      }
  }

  lemma {:induction false} ObjectsInBound(t: TypeRef, u: TypeRef, v: Value, vs: seq<Value>, m: int)
    requires u < t && forall i :: 0 <= i < |vs| ==> vs[i] < v && FanOut(vs[i], m)
    ensures forall i :: 0 <= i < |ObjectsIn(t, u, vs)| ==> FanOut(ObjectsIn(t, u, vs)[i], m)
    ensures |ObjectsIn(t, u, vs)| <= |BelowAll(v, vs)|
    decreases u, 1, |vs|
  {
    if vs != [] {
      ObjectsBound(u, vs[0], m);
      ObjectsInBound(t, u, v, vs[1..], m);
    }
  }

  // ---------------------------------------------------------------- the bound

  ghost predicate Setting(e: Env, sels: seq<Selection>, v: Value) {
    && e.multiplier >= 1 && ObjectSchema(e.schema) && Acyclic(e.frags, sels, {})
    && v.Object? && FanOut(v, e.multiplier)
  }

  /** Executing a selection set resolves no more, and no deeper, than the inlined document says. */
  lemma {:induction false} ExecuteBound(e: Env, keep: Keep, typ: string, sels: seq<Selection>, v: Value, level: int)
    requires Setting(e, sels, v)
    ensures AtMost(Execute(e, keep, typ, sels, v, level), Full(e, typ, sels, level))
    decreases VSize(v), 1, 0
  {
    CollectBound(e, keep, typ, sels, {}, {}, level);
    ExecuteFieldsBound(e, keep, typ, Collect(e.frags, keep, typ, sels, {}).0, v, level);
  }

  lemma {:induction false} ExecuteFieldsBound(e: Env, keep: Keep, typ: string, fs: seq<Selection>, v: Value, level: int)
    requires Setting(e, fs, v) && AllFields(fs)
    ensures AtMost(ExecuteFields(e, keep, typ, fs, v, level), Full(e, typ, fs, level))
    decreases VSize(v), 0, |fs|
  {
    if fs != [] {
      var f := fs[0];
      var group, others := GroupOf(f, fs), Others(f, fs);
      GroupsPartition(e, typ, f, fs, level);
      GroupsAcyclic(e.frags, f, fs);
      assert SameGroup(f, fs[0]) && group != [];
      ExecuteGroupBound(e, keep, typ, group, f.name, f.key, v, level);
      ExecuteFieldsBound(e, keep, typ, others, v, level);
    }
  }

  lemma {:induction false} ExecuteGroupBound(e: Env, keep: Keep, typ: string, group: seq<Selection>,
                                             name: string, key: string, v: Value, level: int)
    requires Setting(e, group, v) && AllFields(group) && group != []
    requires forall i :: 0 <= i < |group| ==> group[i].name == name
    ensures AtMost(ExecuteGroup(e, keep, typ, group, name, key, v, level), Full(e, typ, group, level))
    decreases VSize(v), 0, 0
  {
    FullNonNegative(e, typ, group, level);
    if Costed(e.schema, typ, name) {
      var t := FieldsOf(e.schema, typ)[name];
      var os := Objects(t, Lookup(v.entries, key));
      LookupSmaller(t, v, key);
      FewObjects(e, typ, name, key, v);
      if IsObject(e.schema, NamedType(t)) {
        GroupCost(e, typ, group, name, level);
        ExecuteObjectsBound(e, keep, NamedType(t), Merged(group), os, level + 1);
        ObjectsWithinFactor(e, t, Merged(group), |os|, level + 1);
      } else {
        NoObjects(e, keep, NamedType(t), Merged(group), os, level + 1);
        GroupCostsSomething(e, typ, group, name, level);
      }
    }
  }

  lemma ObjectsWithinFactor(e: Env, t: TypeRef, sels: seq<Selection>, n: nat, level: int)
    requires e.multiplier >= 1 && n <= Factor(t, e.multiplier)
    ensures var c := Full(e, NamedType(t), sels, level).cost; n * c <= c * Factor(t, e.multiplier)
  {
    FullNonNegative(e, NamedType(t), sels, level);
    MultiplyMonotone(n, Factor(t, e.multiplier), Full(e, NamedType(t), sels, level).cost);
  }

  /** A field holds at most as many objects as the analysis multiplies by. */
  lemma FewObjects(e: Env, typ: string, name: string, key: string, v: Value)
    requires e.multiplier >= 1 && ObjectSchema(e.schema) && v.Object? && FanOut(v, e.multiplier)
    requires Costed(e.schema, typ, name)
    ensures var t := FieldsOf(e.schema, typ)[name];
            var os := Objects(t, Lookup(v.entries, key));
            && |os| <= Factor(t, e.multiplier)
            && forall i :: 0 <= i < |os| ==> os[i].Object? && FanOut(os[i], e.multiplier)
  {
    var t := FieldsOf(e.schema, typ)[name];
    FanOutLookup(v.entries, key, e.multiplier);
    ObjectsBound(t, Lookup(v.entries, key), e.multiplier);
  }

  lemma {:induction false} ExecuteObjectsBound(e: Env, keep: Keep, typ: string, sels: seq<Selection>,
                                               os: seq<Value>, level: int)
    requires IsObject(e.schema, typ)
    requires forall i :: 0 <= i < |os| ==> os[i].Object? && Setting(e, sels, os[i])
    ensures var c := ExecuteObjects(e, keep, typ, sels, os, level);
            var full := Full(e, typ, sels, level);
            && c.cost <= |os| * full.cost
            && c.depth <= (if sels == [] then level - 1 else full.depth)
    decreases VSum(os), 2, |os|
  {
    if os != [] {
      var full := Full(e, typ, sels, level);
      ExecuteBound(e, keep, typ, sels, os[0], level);
      ExecuteObjectsBound(e, keep, typ, sels, os[1..], level);
      Distribute(|os| - 1, 1, full.cost);
      assert |os[1..]| * full.cost + full.cost == |os| * full.cost;
      assert RuntimeType(e.schema, typ, os[0]) == Some(typ);
      if sels == [] {
        assert Collect(e.frags, keep, typ, [], {}).0 == [];
        assert Execute(e, keep, typ, sels, os[0], level) == QueryCost(0, level - 1);
      }
    }
  }

  lemma {:induction false} NoObjects(e: Env, keep: Keep, typ: string, sels: seq<Selection>, os: seq<Value>, level: int)
    requires !IsObject(e.schema, typ) && (typ in e.schema ==> !e.schema[typ].AbstractType?)
    requires forall i :: 0 <= i < |os| ==> os[i].Object?
    ensures ExecuteObjects(e, keep, typ, sels, os, level) == QueryCost(0, level - 1)
    decreases |os|
  {
    if os != [] {
      NoObjects(e, keep, typ, sels, os[1..], level);
    }
  }

  lemma GroupCostsSomething(e: Env, typ: string, group: seq<Selection>, name: string, depth: int)
    requires e.multiplier >= 0 && AllFields(group) && group != [] && group[0].name == name
    requires Costed(e.schema, typ, name) && !IsObject(e.schema, NamedType(FieldsOf(e.schema, typ)[name]))
    ensures Full(e, typ, group, depth).cost >= 1
  {
    FullCons(e, typ, group, depth);
    FullNonNegative(e, typ, group[1..], depth);
  }

  /**
   Main result: for every acyclic document, every schema of object types, every
   outcome of directives and type conditions and every result whose fields hold
   at most `multiplier` objects, the fields resolved are within the static cost
   if the document is whole, and their nesting is within the static depth if
   nothing skipped is deeper.
   */
  lemma StaticCostBoundsExecution(e: Env, keep: Keep, typ: string, sels: seq<Selection>, v: Value, level: int)
    requires e.multiplier >= 1 && ObjectSchema(e.schema) && Acyclic(e.frags, sels, {})
    requires v.Object? && FanOut(v, e.multiplier)
    ensures var (done, said) := (Execute(e, keep, typ, sels, v, level), SelectionCost(e, typ, sels, level, {}));
      && (Whole(e, typ, sels, {}, {}) ==> done.cost <= said.cost)
      && (Shallow(e, typ, sels, level, {}, {}, said.depth) ==> done.depth <= said.depth)
  {
    CostExactIffWhole(e, typ, sels, level, {}, {});
    DepthWithinIffShallow(e, typ, sels, level, {}, {}, SelectionCost(e, typ, sels, level, {}).depth);
    ExecuteBound(e, keep, typ, sels, v, level);
  }

  // ---------------------------------------------------------------- single-level lists

  /** Lists have at most `m` elements, none of which is a list. */
  predicate ShortFlatLists(v: Value, m: int) {
    match v
    case Items(vs) => |vs| <= m && forall i :: 0 <= i < |vs| ==> !vs[i].Items? && ShortFlatLists(vs[i], m)
    case Object(_, es) => forall i :: 0 <= i < |es| ==> ShortFlatLists(es[i].value, m)
    case _ => true
  }

  /** With single-level lists, bounding list lengths bounds the fan-out. */
  lemma {:induction false} ShortFlatListsFanOut(v: Value, m: int)
    requires m >= 1 && ShortFlatLists(v, m)
    ensures FanOut(v, m) && |Below(v)| <= m
    decreases v, 1
  {
    match v
    case Items(vs) =>
      forall i | 0 <= i < |vs| ensures FanOut(vs[i], m) {
        ShortFlatListsFanOut(vs[i], m);
      }
      FlatBelow(v, vs, m);
    case Object(_, es) =>
      forall i | 0 <= i < |es| ensures FanOut(es[i].value, m) && |Below(es[i].value)| <= m {
        ShortFlatListsFanOut(es[i].value, m);
      }
    case _ =>
  }

  lemma {:induction false} FlatBelow(v: Value, vs: seq<Value>, m: int)
    requires forall i :: 0 <= i < |vs| ==> vs[i] < v && !vs[i].Items?
    ensures |BelowAll(v, vs)| <= |vs|
    decreases |vs|
  {
    if vs != [] {
      FlatBelow(v, vs[1..], m);
    }
  }
}

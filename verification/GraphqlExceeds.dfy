/**
 Executions that resolve more fields than the static cost: a fragment spread
 beside and inside a field of its own type, and fields of abstract type.
 */
module GraphqlExceeds {
  import opened GraphqlSyntax
  import opened GraphqlCost
  import opened GraphqlInlining
  import opened GraphqlExecution
  import opened GraphqlBound
  import opened GraphqlAttained

  // ---------------------------------------------------------------- repeated spreads

  /** A document without spreads is costed the same whatever was visited. */
  lemma {:induction false} VisitingIrrelevant(e: Env, typ: string, sels: seq<Selection>, level: int, a: set<string>, b: set<string>)
    requires Plainly(e.schema, typ, sels)
    ensures SelectionCost(e, typ, sels, level, a) == SelectionCost(e, typ, sels, level, b)
    decreases Size(sels)
  {
    if sels != [] {
      SizeParts(sels);
      CostNext(e, typ, sels, level, a);
      CostNext(e, typ, sels, level, b);
      hide SelectionCost;
      VisitingIrrelevant(e, typ, sels[1..], level, a, b);
      var t := FieldsOf(e.schema, typ)[sels[0].name];
      if IsObject(e.schema, NamedType(t)) {
        VisitingIrrelevant(e, NamedType(t), sels[0].sub, level + 1, a, b);
      }
    }
  }

  lemma {:induction false} PlainlyPrefix(s: Schema, typ: string, fs: seq<Selection>, g: Selection)
    requires Plainly(s, typ, fs + [g])
    ensures Plainly(s, typ, fs) && Plainly(s, typ, [g])
    decreases |fs|
  {
    var all := fs + [g];
    if fs == [] {
      assert all == [g];
    } else {
      assert all[1..] == fs[1..] + [g];
      PlainlyPrefix(s, typ, fs[1..], g);
      forall i | 0 < i < |fs| && fs[i].Field? ensures fs[i].key != fs[0].key {
        assert all[i] == fs[i];
      }
    }
  }

  lemma {:induction false} CostAppend(e: Env, typ: string, fs: seq<Selection>, g: Selection, level: int)
    requires Plainly(e.schema, typ, fs + [g])
    ensures SelectionCost(e, typ, fs + [g], level, {}).cost
         == SelectionCost(e, typ, fs, level, {}).cost + OneCost(e, typ, g, level, {}).cost
    decreases |fs|
  {
    var all := fs + [g];
    CostNext(e, typ, all, level, {});
    if fs == [] {
      assert all == [g] && all[1..] == [];
    } else {
      assert all[1..] == fs[1..] + [g];
      CostNext(e, typ, fs, level, {});
      CostAppend(e, typ, fs[1..], g, level);
    }
  }

  /** Spreading a plain fragment collects its fields. */
  lemma CollectsSpread(e: Env, keep: Keep, typ: string, n: string)
    requires KeepsAll(keep) && n in e.frags && Plainly(e.schema, typ, e.frags[n])
    ensures Collect(e.frags, keep, typ, [Spread(n, "")], {}).0 == e.frags[n]
    ensures CollectOne(e.frags, keep, typ, Spread(n, ""), {}) == (e.frags[n], {n})
  {
    CollectsAll(e.frags, keep, e.schema, typ, e.frags[n], {n});
    var one := [Spread(n, "")];
    assert one[1..] == [] && keep(typ, one[0]) && {} + {n} == {n};
    assert e.frags[n] + [] == e.frags[n];
  }

  lemma {:induction false} SpreadOnObjects(e: Env, keep: Keep, typ: string, n: string, os: seq<Value>, level: int)
    requires KeepsAll(keep) && n in e.frags && Plainly(e.schema, typ, e.frags[n]) && IsObject(e.schema, typ)
    requires forall i :: 0 <= i < |os| ==> os[i].Object?
    ensures ExecuteObjects(e, keep, typ, [Spread(n, "")], os, level) == ExecuteObjects(e, keep, typ, e.frags[n], os, level)
  {
    if os != [] {
      CollectsSpread(e, keep, typ, n);
      CollectsAll(e.frags, keep, e.schema, typ, e.frags[n], {});
      SpreadOnObjects(e, keep, typ, n, os[1..], level);
    }
  }

  /** The last field may be exchanged for one that executes alike. */
  lemma {:induction false} SwapLast(e: Env, keep: Keep, typ: string, fs: seq<Selection>, g: Selection, h: Selection, v: Value, level: int)
    requires v.Object? && Plainly(e.schema, typ, fs + [h]) && g.Field? && h.Field? && g.key == h.key && g.name == h.name
    requires ExecuteGroup(e, keep, typ, [g], g.name, g.key, v, level) == ExecuteGroup(e, keep, typ, [h], h.name, h.key, v, level)
    ensures AllFields(fs + [g]) && AllFields(fs + [h])
    ensures ExecuteFields(e, keep, typ, fs + [g], v, level) == ExecuteFields(e, keep, typ, fs + [h], v, level)
    decreases |fs|
  {
    PlainlyFields(e.schema, typ, fs + [h]);
    var (a, b) := (fs + [g], fs + [h]);
    assert forall i :: 0 <= i < |fs| ==> b[i] == fs[i] == a[i];
    hide ExecuteGroup;
    if fs == [] {
      assert a == [g] && b == [h] && a[1..] == b[1..] == [];
    } else {
      assert a[1..] == fs[1..] + [g] && b[1..] == fs[1..] + [h];
      assert forall i :: 0 < i < |b| ==> b[i].key != b[0].key;
      forall i | 0 < i < |a| ensures a[i].key != a[0].key {
        assert b[i].key != b[0].key;
      }
      SwapLast(e, keep, typ, fs[1..], g, h, v, level);
    }
    ExecuteNext(e, keep, typ, a, v, level);
    ExecuteNext(e, keep, typ, b, v, level);
  }

  /** Fields of a recursive type, and below one of them the same fields again. */
  function Twice(e: Env, n: string, name: string): seq<Selection>
    requires n in e.frags
  {
    e.frags[n] + [Field(name, name, "", e.frags[n])]
  }

  /** { ...F  a { ...F } } */
  function Spreads(n: string, name: string): seq<Selection> {
    [Spread(n, ""), Field(name, name, "", [Spread(n, "")])]
  }

  /** It executes like the document with both spreads written out. */
  lemma SpreadsExecuteAsTwice(e: Env, keep: Keep, typ: string, n: string, name: string, v: Value, level: int)
    requires KeepsAll(keep) && n in e.frags && IsObject(e.schema, typ) && v.Object? && Plainly(e.schema, typ, Twice(e, n, name))
    requires name in FieldsOf(e.schema, typ) && NamedType(FieldsOf(e.schema, typ)[name]) == typ
    ensures Execute(e, keep, typ, Spreads(n, name), v, level) == Execute(e, keep, typ, Twice(e, n, name), v, level)
  {
    var (fs, g, h) := (e.frags[n], Field(name, name, "", [Spread(n, "")]), Field(name, name, "", e.frags[n]));
    PlainlyPrefix(e.schema, typ, fs, h);
    SpreadsCollect(e, keep, typ, n, name);
    CollectsAll(e.frags, keep, e.schema, typ, Twice(e, n, name), {});
    assert [g][1..] == [] && [h][1..] == [] && Merged([g]) == g.sub + Merged([]) == g.sub && Merged([h]) == h.sub + Merged([]) == h.sub;
    var os := Objects(FieldsOf(e.schema, typ)[name], Lookup(v.entries, name));
    SpreadOnObjects(e, keep, typ, n, os, level + 1);
    SwapLast(e, keep, typ, fs, g, h, v, level);
  }

  lemma SpreadsCollect(e: Env, keep: Keep, typ: string, n: string, name: string)
    requires KeepsAll(keep) && n in e.frags && Plainly(e.schema, typ, e.frags[n])
    ensures Collect(e.frags, keep, typ, Spreads(n, name), {}).0 == e.frags[n] + [Field(name, name, "", [Spread(n, "")])]
  {
    var (q, g) := (Spreads(n, name), Field(name, name, "", [Spread(n, "")]));
    CollectsSpread(e, keep, typ, n);
    assert q[1..] == [g] && [g][1..] == [] && keep(typ, g);
    assert Collect(e.frags, keep, typ, [g], {n}).0 == [g] + [];
  }

  /**
   For every non-empty plain fragment on a type with a field `name` of that same
   type: the document spreading it beside and inside that field has a result
   with permitted fan-out whose execution exceeds the static cost, by the
   fragment's whole cost once more for every object of the field.
   */
  lemma RepeatedSpreadExceeds(e: Env, keep: Keep, typ: string, n: string, name: string, level: int) returns (v: Value)
    requires Ready(e, keep) && n in e.frags && e.frags[n] != [] && IsObject(e.schema, typ) && Costed(e.schema, typ, name)
    requires NamedType(FieldsOf(e.schema, typ)[name]) == typ && Plainly(e.schema, typ, Twice(e, n, name))
    ensures v.Object? && FanOut(v, e.multiplier)
    ensures var (done, said) := (Execute(e, keep, typ, Spreads(n, name), v, level), SelectionCost(e, typ, Spreads(n, name), level, {}));
      && done.cost > said.cost
      && done.cost == said.cost + SelectionCost(e, typ, e.frags[n], level + 1, {}).cost
                                  * Factor(FieldsOf(e.schema, typ)[name], e.multiplier)
  {
    var (fs, h, t) := (e.frags[n], Field(name, name, "", e.frags[n]), FieldsOf(e.schema, typ)[name]);
    v := BoundIsAttained(e, keep, typ, Twice(e, n, name), level);
    SpreadsExecuteAsTwice(e, keep, typ, n, name, v, level);
    PlainlyPrefix(e.schema, typ, fs, h);
    CostAppend(e, typ, fs, h, level);
    RepeatedSpreadIsCostedOnce(e, typ, n, name, level);
    VisitingIrrelevant(e, typ, fs, level, {n}, {});
    PlainCostsSomething(e, typ, fs, level + 1);
    PositiveProduct(SelectionCost(e, typ, fs, level + 1, {}).cost, Factor(t, e.multiplier));
  }

  lemma PlainCostsSomething(e: Env, typ: string, fs: seq<Selection>, level: int)
    requires e.multiplier >= 1 && fs != [] && Plainly(e.schema, typ, fs)
    ensures SelectionCost(e, typ, fs, level, {}).cost >= 1
  {
    CostNext(e, typ, fs, level, {});
    CostNonNegative(e, typ, fs[1..], level, {});
    var t := FieldsOf(e.schema, typ)[fs[0].name];
    CostNonNegative(e, NamedType(t), fs[0].sub, level + 1, {});
    MultiplyMonotone(0, SelectionCost(e, NamedType(t), fs[0].sub, level + 1, {}).cost, Factor(t, e.multiplier));
  }

  lemma PositiveProduct(a: int, f: int)
    requires a >= 1 && f >= 1
    ensures a * f >= 1
  {
    MultiplyMonotone(1, a, f);
  }

  // ---------------------------------------------------------------- abstract types

  /** No field that execution collects on an object of type `o` is costed. */
  ghost predicate FreeOn(e: Env, keep: Keep, o: string, sels: seq<Selection>) {
    var fs := Collect(e.frags, keep, o, sels, {}).0;
    forall i :: 0 <= i < |fs| ==> !Costed(e.schema, o, fs[i].name)
  }

  ghost predicate IsAbstract(s: Schema, name: string) { name in s && s[name].AbstractType? }

  lemma {:induction false} FreeFields(e: Env, keep: Keep, typ: string, fs: seq<Selection>, v: Value, level: int)
    requires v.Object? && AllFields(fs) && forall i :: 0 <= i < |fs| ==> !Costed(e.schema, typ, fs[i].name)
    ensures ExecuteFields(e, keep, typ, fs, v, level).cost == 0
    decreases |fs|
  {
    if fs != [] {
      OthersAreSome(fs[0], fs);
      FreeFields(e, keep, typ, Others(fs[0], fs), v, level);
    }
  }

  lemma {:induction false} OthersAreSome(f: Selection, fs: seq<Selection>)
    requires f.Field? && AllFields(fs)
    ensures forall g :: g in Others(f, fs) ==> g in fs
    ensures forall g :: g in fs ==> g in Others(f, fs) || (g.Field? && SameGroup(f, g))
  {
    if fs != [] {
      OthersAreSome(f, fs[1..]);
    }
  }

  lemma {:induction false} FreeObjects(e: Env, keep: Keep, declared: string, sels: seq<Selection>, os: seq<Value>, level: int)
    requires IsAbstract(e.schema, declared) && forall o :: o in e.schema[declared].possible ==> FreeOn(e, keep, o, sels)
    requires forall i :: 0 <= i < |os| ==> os[i].Object?
    ensures ExecuteObjects(e, keep, declared, sels, os, level).cost == 0
  {
    if os != [] {
      FreeObjects(e, keep, declared, sels, os[1..], level);
      var o := os[0].typeName;
      if o in e.schema[declared].possible {
        assert FreeOn(e, keep, o, sels);
        FreeFields(e, keep, o, Collect(e.frags, keep, o, sels, {}).0, os[0], level);
      }
    }
  }

  /** On an object without entries a group costs one or nothing. */
  lemma BareGroup(e: Env, keep: Keep, typ: string, group: seq<Selection>, f: Selection, name: string, level: int)
    requires f.Field? && AllFields(group)
    ensures ExecuteGroup(e, keep, typ, group, f.name, f.key, Object(name, []), level).cost
         == if Costed(e.schema, typ, f.name) then 1 else 0
  {
    if Costed(e.schema, typ, f.name) {
      NullHasNoObjects(FieldsOf(e.schema, typ)[f.name]);
    }
  }

  lemma {:induction false} BareObject(e: Env, keep: Keep, typ: string, fs: seq<Selection>, name: string, level: int)
    requires AllFields(fs)
    ensures ExecuteFields(e, keep, typ, fs, Object(name, []), level).cost >= 0
    ensures (exists f :: f in fs && f.Field? && Costed(e.schema, typ, f.name)) ==>
              ExecuteFields(e, keep, typ, fs, Object(name, []), level).cost >= 1
    decreases |fs|
  {
    if fs != [] {
      var rest := Others(fs[0], fs);
      BareGroup(e, keep, typ, GroupOf(fs[0], fs), fs[0], name, level);
      BareObject(e, keep, typ, rest, name, level);
      OthersAreSome(fs[0], fs);
      hide ExecuteGroup;
      if f :| f in fs && f.Field? && Costed(e.schema, typ, f.name) && !Costed(e.schema, typ, fs[0].name) {
        assert f in rest;
      }
    }
  }

  /** A field on its own: itself, then what it holds. */
  lemma ExecuteOneField(e: Env, keep: Keep, typ: string, f: Selection, v: Value, level: int)
    requires f.Field? && keep(typ, f) && v.Object? && Costed(e.schema, typ, f.name)
    ensures var t := FieldsOf(e.schema, typ)[f.name];
      Execute(e, keep, typ, [f], v, level).cost
      == 1 + ExecuteObjects(e, keep, NamedType(t), f.sub, Objects(t, Lookup(v.entries, f.key)), level + 1).cost
  {
    assert [f][1..] == [] && [f] + [] == [f] && Collect(e.frags, keep, typ, [f], {}).0 == [f];
    assert Merged([f]) == f.sub + Merged([]) == f.sub;
    hide ExecuteObjects;
    ExecuteNext(e, keep, typ, [f], v, level);
  }

  /**
   A field of interface or union type costs one, whatever is selected below it.
   That bounds every execution if and only if no possible type has a costed
   field in the sub-selection.
   */
  lemma AbstractBoundIff(e: Env, keep: Keep, typ: string, f: Selection, level: int)
    requires f.Field? && keep(typ, f) && Costed(e.schema, typ, f.name) && e.multiplier >= 1
    requires IsAbstract(e.schema, NamedType(FieldsOf(e.schema, typ)[f.name]))
    ensures (forall v: Value :: v.Object? && FanOut(v, e.multiplier) ==>
               Execute(e, keep, typ, [f], v, level).cost <= SelectionCost(e, typ, [f], level, {}).cost)
      <==> (forall o :: o in e.schema[NamedType(FieldsOf(e.schema, typ)[f.name])].possible ==> FreeOn(e, keep, o, f.sub))
  {
    var t := FieldsOf(e.schema, typ)[f.name];
    SingleSelection(e, typ, f, level, {});
    assert SelectionCost(e, typ, [f], level, {}).cost == 1;
    if forall o :: o in e.schema[NamedType(t)].possible ==> FreeOn(e, keep, o, f.sub) {
      forall v: Value | v.Object? && FanOut(v, e.multiplier) ensures Execute(e, keep, typ, [f], v, level).cost <= 1 {
        ExecuteOneField(e, keep, typ, f, v, level);
        FreeObjects(e, keep, NamedType(t), f.sub, Objects(t, Lookup(v.entries, f.key)), level + 1);
      }
    } else {
      var o :| o in e.schema[NamedType(t)].possible && !FreeOn(e, keep, o, f.sub);
      var v := AbstractExceeds(e, keep, typ, f, o, level);
    }
  }

  /** An object of such a type is enough to exceed the cost. */
  lemma AbstractExceeds(e: Env, keep: Keep, typ: string, f: Selection, o: string, level: int) returns (v: Value)
    requires f.Field? && keep(typ, f) && Costed(e.schema, typ, f.name) && e.multiplier >= 1
    requires IsAbstract(e.schema, NamedType(FieldsOf(e.schema, typ)[f.name]))
    requires o in e.schema[NamedType(FieldsOf(e.schema, typ)[f.name])].possible && !FreeOn(e, keep, o, f.sub)
    ensures v.Object? && FanOut(v, e.multiplier)
    ensures Execute(e, keep, typ, [f], v, level).cost >= 2 > SelectionCost(e, typ, [f], level, {}).cost
  {
    var t := FieldsOf(e.schema, typ)[f.name];
    var bare := Object(o, []);
    v := Object(typ, [Entry(f.key, One(t, bare))]);
    ObjectsOne(t, bare);
    OneFansOut(t, bare, e.multiplier);
    ExecuteOneField(e, keep, typ, f, v, level);
    var fs := Collect(e.frags, keep, o, f.sub, {}).0;
    BareObject(e, keep, o, fs, o, level + 1);
    var i :| 0 <= i < |fs| && Costed(e.schema, o, fs[i].name);
    assert fs[i] in fs && fs[i].Field?;
    assert [bare][1..] == [];
    SingleSelection(e, typ, f, level, {});
  }
}

/**
 Exactly when the static cost and depth bound every execution.

 A document is written out by replacing every spread by its fragment and every
 inline fragment by its fields.  If the written-out form has known fields with
 distinct response keys at every level, it executes like the document itself,
 and its fullest result costs as much as the inlined document: so the bound
 holds for all results if and only if the document is whole.
 */
module GraphqlExact {
  import opened GraphqlSyntax
  import opened GraphqlCost
  import opened GraphqlInlining
  import opened GraphqlWhole
  import opened GraphqlExecution
  import opened GraphqlBound
  import opened GraphqlAttained

  // ---------------------------------------------------------------- writing a document out

  /** Inline fragments replaced by their fields. */
  function Flat(tree: seq<Selection>): (r: seq<Selection>)
    ensures AllFields(r)
    decreases Size(tree), 1
  {
    if tree == [] then [] else FlatOne(tree[0]) + Flat(tree[1..])
  }

  function FlatOne(sel: Selection): (r: seq<Selection>)
    ensures AllFields(r)
    decreases SelSize(sel), 0
  {
    match sel
    case Field(name, key, meta, sub) => [Field(name, key, meta, Flat(sub))]
    case Inline(_, sub) => Flat(sub)
    case Spread(_, _) => []
  }

  function Written(frags: Fragments, sels: seq<Selection>, stack: set<string>): (r: seq<Selection>)
    ensures AllFields(r)
  {
    Flat(Inlined(frags, sels, stack))
  }

  lemma {:induction false} FlatAppend(a: seq<Selection>, b: seq<Selection>)
    ensures Flat(a + b) == Flat(a) + Flat(b)
    decreases |a|
  {
    if a == [] {
      assert a + b == b;
    } else {
      assert (a + b)[1..] == a[1..] + b;
      FlatAppend(a[1..], b);
      assert FlatOne(a[0]) + (Flat(a[1..]) + Flat(b)) == (FlatOne(a[0]) + Flat(a[1..])) + Flat(b);
    }
  }

  lemma WrittenAppend(frags: Fragments, a: seq<Selection>, b: seq<Selection>, stack: set<string>)
    ensures Written(frags, a + b, stack) == Written(frags, a, stack) + Written(frags, b, stack)
  {
    InlinedAppend(frags, a, b, stack);
    FlatAppend(Inlined(frags, a, stack), Inlined(frags, b, stack));
  }

  lemma FlatSingle(sel: Selection)
    ensures Flat([sel]) == FlatOne(sel)
  {
    assert [sel][1..] == [] && Flat([]) == [];
  }

  // ---------------------------------------------------------------- it costs the same

  /** Every selection set below contains a field, as the grammar and validation demand. */
  predicate Solid(tree: seq<Selection>)
    decreases Size(tree), 1
  {
    tree == [] || (SolidOne(tree[0]) && Solid(tree[1..]))
  }

  predicate SolidOne(sel: Selection)
    decreases SelSize(sel), 0
  {
    match sel
    case Field(_, _, _, sub) => Solid(sub) && (sub != [] ==> Flat(sub) != [])
    case Inline(_, sub) => Solid(sub)
    case Spread(_, _) => true
  }

  lemma {:induction false} FlatCost(e: Env, typ: string, tree: seq<Selection>, depth: int)
    ensures TreeCost(e, typ, Flat(tree), depth).cost == TreeCost(e, typ, tree, depth).cost
    ensures Solid(tree) ==> TreeCost(e, typ, Flat(tree), depth).depth == TreeCost(e, typ, tree, depth).depth
    decreases Size(tree), 1
  {
    if tree != [] {
      SizeParts(tree);
      FlatOneCost(e, typ, tree[0], depth);
      FlatCost(e, typ, tree[1..], depth);
      TreeCostAppend(e, typ, FlatOne(tree[0]), Flat(tree[1..]), depth);
      assert tree == [tree[0]] + tree[1..];
      TreeCostCons(e, typ, tree[0], tree[1..], depth);
    }
  }

  lemma {:induction false} FlatOneCost(e: Env, typ: string, sel: Selection, depth: int)
    ensures TreeCost(e, typ, FlatOne(sel), depth).cost == TreeOne(e, typ, sel, depth).cost
    ensures SolidOne(sel) ==> TreeCost(e, typ, FlatOne(sel), depth).depth == TreeOne(e, typ, sel, depth).depth
    decreases SelSize(sel), 0
  {
    match sel
    case Field(name, key, meta, sub) =>
      SingleSelection(Plain(e), typ, Field(name, key, meta, Flat(sub)), depth, {});
      if Costed(e.schema, typ, name) {
        var child := NamedType(FieldsOf(e.schema, typ)[name]);
        FlatCost(e, child, sub, depth + 1);
        assert TreeCost(e, child, [], depth + 1).cost == 0;
      }
    case Inline(_, sub) => FlatCost(e, typ, sub, depth);
    case Spread(_, _) => assert TreeCost(e, typ, [], depth) == QueryCost(0, depth);
  }

  // ---------------------------------------------------------------- collecting drops nothing

  ghost predicate DistinctKeys(fs: seq<Selection>)
    requires AllFields(fs)
  {
    forall i, j :: 0 <= i < j < |fs| ==> fs[i].key != fs[j].key
  }

  /** The fields of every fragment already left are among those collected so far. */
  ghost predicate Entered(frags: Fragments, visited: set<string>, stack: set<string>, done: seq<Selection>) {
    forall n :: n in visited && n !in stack && n in frags ==> Among(Written(frags, frags[n], {n}), done)
  }

  ghost predicate Among(fs: seq<Selection>, done: seq<Selection>) { forall f :: f in fs ==> f in done }

  lemma TwiceClashes(done: seq<Selection>, fs: seq<Selection>)
    requires AllFields(done + fs) && Among(fs, done) && fs != []
    ensures !DistinctKeys(done + fs)
  {
    assert fs[0] in done;
    var i :| 0 <= i < |done| && done[i] == fs[0];
    assert (done + fs)[i] == (done + fs)[|done|];
  }

  lemma {:induction false} CollectOneWrites(frags: Fragments, keep: Keep, typ: string, sel: Selection, visited: set<string>,
                                            stack: set<string>, done: seq<Selection>)
    requires KeepsAll(keep) && AcyclicOne(frags, sel, stack) && Entered(frags, visited, stack, done)
    requires var one := FlatOne(InlinedOne(frags, sel, stack)); AllFields(done + one) && DistinctKeys(done + one)
    ensures var (fs, v) := CollectOne(frags, keep, typ, sel, visited);
      var one := FlatOne(InlinedOne(frags, sel, stack));
      Acyclic(frags, fs, {}) && Written(frags, fs, {}) == one && Entered(frags, v, stack, done + one)
    decreases Left(frags, visited), SelSize(sel), 0
  {
    assert keep(typ, sel);
    match sel
    case Field(_, _, _, _) =>
      OneStackIrrelevant(frags, sel, stack, {});
      assert [sel][1..] == [] && Inlined(frags, [sel], {}) == [InlinedOne(frags, sel, {})];
      FlatSingle(InlinedOne(frags, sel, {}));
    case Inline(_, sub) => CollectWrites(frags, keep, typ, sub, visited, stack, done);
    case Spread(n, _) =>
      if n in frags {
        var body := Written(frags, frags[n], stack + {n});
        StackIrrelevant(frags, frags[n], stack + {n}, {n});
        if n in visited {
          if body != [] {
            TwiceClashes(done, body);
          }
          assert done + [] == done;
        } else {
          LeftShrinks(frags, visited, n);
          CollectWrites(frags, keep, typ, frags[n], visited + {n}, stack + {n}, done);
        }
      } else {
        assert done + [] == done;
      }
  }

  /** With distinct response keys, what is collected is the written-out selection set. */
  lemma {:induction false} CollectWrites(frags: Fragments, keep: Keep, typ: string, sels: seq<Selection>, visited: set<string>,
                                         stack: set<string>, done: seq<Selection>)
    requires KeepsAll(keep) && Acyclic(frags, sels, stack) && Entered(frags, visited, stack, done)
    requires AllFields(done + Written(frags, sels, stack)) && DistinctKeys(done + Written(frags, sels, stack))
    ensures var (fs, v) := Collect(frags, keep, typ, sels, visited);
      && Acyclic(frags, fs, {}) && Written(frags, fs, {}) == Written(frags, sels, stack)
      && Entered(frags, v, stack, done + Written(frags, sels, stack))
    decreases Left(frags, visited), Size(sels), 1
  {
    if sels == [] {
      assert done + [] == done;
    } else {
      SizeParts(sels);
      var (one, rest) := (FlatOne(InlinedOne(frags, sels[0], stack)), Written(frags, sels[1..], stack));
      assert Written(frags, sels, stack) == one + rest by {
        var tree := Inlined(frags, sels, stack);
        assert tree[0] == InlinedOne(frags, sels[0], stack) && tree[1..] == Inlined(frags, sels[1..], stack);
      }
      assert done + (one + rest) == (done + one) + rest;
      assert forall i :: 0 <= i < |done + one| ==> (done + one)[i] == ((done + one) + rest)[i];
      CollectOneWrites(frags, keep, typ, sels[0], visited, stack, done);
      var (fs, v) := CollectOne(frags, keep, typ, sels[0], visited);
      LeftMonotone(frags, visited, v);
      CollectWrites(frags, keep, typ, sels[1..], v, stack, done + one);
      var gs := Collect(frags, keep, typ, sels[1..], v).0;
      AcyclicAppend(frags, fs, gs);
      WrittenAppend(frags, fs, gs, {});
    }
  }

  // ---------------------------------------------------------------- it executes the same

  lemma {:induction false} WrittenFields(frags: Fragments, fs: seq<Selection>)
    requires AllFields(fs)
    ensures |Written(frags, fs, {})| == |fs|
    ensures forall i :: 0 <= i < |fs| ==>
      Written(frags, fs, {})[i] == Field(fs[i].name, fs[i].key, fs[i].meta, Written(frags, fs[i].sub, {}))
    decreases |fs|
  {
    if fs != [] {
      WrittenFields(frags, fs[1..]);
      WrittenHead(frags, fs);
    }
  }

  lemma WrittenHead(frags: Fragments, fs: seq<Selection>)
    requires AllFields(fs) && fs != []
    ensures Written(frags, fs, {})
         == [Field(fs[0].name, fs[0].key, fs[0].meta, Written(frags, fs[0].sub, {}))] + Written(frags, fs[1..], {})
  {
    var tree := Inlined(frags, fs, {});
    var f := fs[0];
    assert InlinedOne(frags, f, {}) == Field(f.name, f.key, f.meta, Inlined(frags, f.sub, {}));
    assert tree[0] == InlinedOne(frags, f, {}) && tree[1..] == Inlined(frags, fs[1..], {});
    assert FlatOne(tree[0]) == [Field(f.name, f.key, f.meta, Flat(Inlined(frags, f.sub, {})))];
  }

  lemma {:induction false} PlainlyKeys(s: Schema, typ: string, fs: seq<Selection>)
    requires Plainly(s, typ, fs)
    ensures AllFields(fs) && DistinctKeys(fs)
    decreases |fs|
  {
    if fs != [] {
      PlainlyKeys(s, typ, fs[1..]);
      var rest := fs[1..];
      forall i, j | 0 <= i < j < |fs| ensures fs[j].Field? && fs[i].key != fs[j].key {
        assert rest[j - 1] == fs[j] && (i > 0 ==> rest[i - 1] == fs[i]);
      }
    }
  }

  /** A document executes like its written-out form. */
  lemma {:induction false} ExecuteWritten(e: Env, keep: Keep, typ: string, sels: seq<Selection>, v: Value, level: int)
    requires KeepsAll(keep) && ObjectSchema(e.schema) && v.Object?
    requires Acyclic(e.frags, sels, {}) && Plainly(e.schema, typ, Written(e.frags, sels, {}))
    ensures Execute(e, keep, typ, sels, v, level) == Execute(Plain(e), keep, typ, Written(e.frags, sels, {}), v, level)
    decreases VSize(v), 1, 0
  {
    var out := Written(e.frags, sels, {});
    PlainlyKeys(e.schema, typ, out);
    assert [] + out == out;
    CollectWrites(e.frags, keep, typ, sels, {}, {}, []);
    CollectsAll(map[], keep, e.schema, typ, out, {});
    ExecuteFieldsWritten(e, keep, typ, Collect(e.frags, keep, typ, sels, {}).0, v, level);
  }

  lemma {:induction false} ExecuteFieldsWritten(e: Env, keep: Keep, typ: string, fs: seq<Selection>, v: Value, level: int)
    requires KeepsAll(keep) && ObjectSchema(e.schema) && v.Object? && AllFields(fs)
    requires Acyclic(e.frags, fs, {}) && Plainly(e.schema, typ, Written(e.frags, fs, {}))
    ensures ExecuteFields(e, keep, typ, fs, v, level) == ExecuteFields(Plain(e), keep, typ, Written(e.frags, fs, {}), v, level)
    decreases VSize(v), 0, |fs|
  {
    if fs != [] {
      var out := Written(e.frags, fs, {});
      WrittenFields(e.frags, fs);
      WrittenHead(e.frags, fs);
      PlainlyKeys(e.schema, typ, out);
      assert out[1..] == Written(e.frags, fs[1..], {});
      forall i | 0 < i < |fs| ensures fs[i].key != fs[0].key {
        assert out[i].key != out[0].key;
      }
      ExecuteNext(e, keep, typ, fs, v, level);
      ExecuteNext(Plain(e), keep, typ, out, v, level);
      ExecuteGroupWritten(e, keep, typ, fs[0], out[0], v, level);
      ExecuteFieldsWritten(e, keep, typ, fs[1..], v, level);
    }
  }

  lemma {:induction false} ExecuteGroupWritten(e: Env, keep: Keep, typ: string, f: Selection, g: Selection, v: Value, level: int)
    requires KeepsAll(keep) && ObjectSchema(e.schema) && v.Object? && f.Field? && Costed(e.schema, typ, f.name)
    requires g == Field(f.name, f.key, f.meta, Written(e.frags, f.sub, {})) && Acyclic(e.frags, f.sub, {})
    requires var child := NamedType(FieldsOf(e.schema, typ)[f.name]);
      IsObject(e.schema, child) ==> Plainly(e.schema, child, g.sub)
    ensures ExecuteGroup(e, keep, typ, [f], f.name, f.key, v, level) == ExecuteGroup(Plain(e), keep, typ, [g], g.name, g.key, v, level)
    decreases VSize(v), 0, 0
  {
    var t := FieldsOf(e.schema, typ)[f.name];
    var os := Objects(t, Lookup(v.entries, f.key));
    LookupSmaller(t, v, f.key);
    assert [f][1..] == [] && [g][1..] == [] && Merged([]) == [];
    assert Merged([f]) == f.sub + [] == f.sub && Merged([g]) == g.sub + [] == g.sub;
    hide ExecuteObjects, Objects, Lookup, Written, Plainly, Acyclic, Merged;
    ExecuteObjectsWritten(e, keep, NamedType(t), f.sub, os, level + 1);
  }

  lemma {:induction false} ExecuteObjectsWritten(e: Env, keep: Keep, declared: string, sels: seq<Selection>, os: seq<Value>, level: int)
    requires KeepsAll(keep) && ObjectSchema(e.schema) && Acyclic(e.frags, sels, {})
    requires declared in e.schema ==> !e.schema[declared].AbstractType?
    requires IsObject(e.schema, declared) ==> Plainly(e.schema, declared, Written(e.frags, sels, {}))
    requires forall i :: 0 <= i < |os| ==> os[i].Object?
    ensures ExecuteObjects(e, keep, declared, sels, os, level)
         == ExecuteObjects(Plain(e), keep, declared, Written(e.frags, sels, {}), os, level)
    decreases VSum(os), 2, |os|
  {
    if os != [] {
      if IsObject(e.schema, declared) {
        ExecuteWritten(e, keep, declared, sels, os[0], level);
      }
      ExecuteObjectsWritten(e, keep, declared, sels, os[1..], level);
    }
  }

  // ---------------------------------------------------------------- the exact condition

  /** No execution, whatever its directives and results, resolves more fields than the static cost. */
  ghost predicate CostBounds(e: Env, typ: string, sels: seq<Selection>, level: int) {
    forall keep: Keep, v: Value :: v.Object? && FanOut(v, e.multiplier) ==>
      Execute(e, keep, typ, sels, v, level).cost <= SelectionCost(e, typ, sels, level, {}).cost
  }

  /** ... or nests deeper than the static depth. */
  ghost predicate DepthBounds(e: Env, typ: string, sels: seq<Selection>, level: int) {
    forall keep: Keep, v: Value :: v.Object? && FanOut(v, e.multiplier) ==>
      Execute(e, keep, typ, sels, v, level).depth <= SelectionCost(e, typ, sels, level, {}).depth
  }

  predicate Always(typ: string, sel: Selection) { true }

  /** The fullest result of the written-out form costs what the inlined document does. */
  lemma FullestCost(e: Env, typ: string, sels: seq<Selection>, level: int) returns (v: Value)
    requires e.multiplier >= 1 && ObjectSchema(e.schema) && Acyclic(e.frags, sels, {})
    requires Plainly(e.schema, typ, Written(e.frags, sels, {})) && Written(e.frags, sels, {}) != []
    ensures v.Object? && FanOut(v, e.multiplier)
    ensures var (done, tree) := (Execute(e, Always, typ, sels, v, level), Inlined(e.frags, sels, {}));
      && done.cost == TreeCost(e, typ, tree, level).cost
      && (Solid(tree) ==> done.depth == TreeCost(e, typ, tree, level).depth)
  {
    v := BoundIsAttained(Plain(e), Always, typ, Written(e.frags, sels, {}), level);
    ExecuteWritten(e, Always, typ, sels, v, level);
    FlatCost(e, typ, Inlined(e.frags, sels, {}), level);
  }

  /**
   Main result: for every acyclic document over object types whose written-out
   form has known fields with distinct response keys, the static cost bounds
   every execution if and only if the document is whole, and, where every
   selection set has a field, the static depth bounds every nesting if and only
   if nothing skipped is deeper.
   */
  lemma BoundsIffWhole(e: Env, typ: string, sels: seq<Selection>, level: int)
    requires e.multiplier >= 1 && ObjectSchema(e.schema) && Acyclic(e.frags, sels, {})
    requires Plainly(e.schema, typ, Written(e.frags, sels, {}))
    ensures CostBounds(e, typ, sels, level) <==> Whole(e, typ, sels, {}, {})
    ensures Solid(Inlined(e.frags, sels, {})) ==>
      (DepthBounds(e, typ, sels, level) <==> Shallow(e, typ, sels, level, {}, {}, SelectionCost(e, typ, sels, level, {}).depth))
  {
    hide Execute, Whole, Shallow, Inlined, Acyclic, FanOut, Plainly, Solid;
    var (said, tree) := (SelectionCost(e, typ, sels, level, {}), Inlined(e.frags, sels, {}));
    forall keep: Keep, v: Value | v.Object? && FanOut(v, e.multiplier)
      ensures Whole(e, typ, sels, {}, {}) ==> Execute(e, keep, typ, sels, v, level).cost <= said.cost
      ensures Shallow(e, typ, sels, level, {}, {}, said.depth) ==> Execute(e, keep, typ, sels, v, level).depth <= said.depth
    {
      StaticCostBoundsExecution(e, keep, typ, sels, v, level);
    }
    CostExactIffWhole(e, typ, sels, level, {}, {});
    DepthWithinIffShallow(e, typ, sels, level, {}, {}, said.depth);
    NeverOverestimates(e, typ, sels, level, {}, {});
    if Written(e.frags, sels, {}) == [] {
      FlatCost(e, typ, tree, level);
      CostNonNegative(e, typ, sels, level, {});
      assert TreeCost(e, typ, [], level) == QueryCost(0, level);
    } else {
      var v := FullestCost(e, typ, sels, level);
      assert CostBounds(e, typ, sels, level) ==> TreeCost(e, typ, tree, level).cost <= said.cost;
    }
  }
}

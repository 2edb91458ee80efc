/**
 The static cost is not only an upper bound: for every document of plain
 fields with distinct response keys there is a result, with lists of exactly
 `list_multiplier` elements, whose execution resolves exactly that many fields
 exactly that deep.
 */
module GraphqlAttained {
  import opened GraphqlSyntax
  import opened GraphqlCost
  import opened GraphqlExecution
  import opened GraphqlBound

  /** Known, non-introspection fields only, with distinct response keys, at every level. */
  ghost predicate Plainly(s: Schema, typ: string, sels: seq<Selection>)
    decreases Size(sels)
  {
    sels == [] || (
      SizeParts(sels);
      && sels[0].Field? && Costed(s, typ, sels[0].name)
      && (forall i :: 0 < i < |sels| && sels[i].Field? ==> sels[i].key != sels[0].key)
      && var child := NamedType(FieldsOf(s, typ)[sels[0].name]);
      && (IsObject(s, child) ==> Plainly(s, child, sels[0].sub))
      && Plainly(s, typ, sels[1..]))
  }

  ghost predicate KeepsAll(keep: Keep) { forall typ, sel :: keep(typ, sel) }

  // ---------------------------------------------------------------- the fullest result

  function Repeat(v: Value, n: nat): (r: seq<Value>)
    ensures |r| == n && forall i :: 0 <= i < |r| ==> r[i] == v
  {
    if n == 0 then [] else [v] + Repeat(v, n - 1)
  }

  /** `v` as the only object of a value of type `t`. */
  function One(t: TypeRef, v: Value): Value {
    match t
    case Named(_) => v
    case NonNull(u) => One(u, v)
    case ListOf(u) => Items([One(u, v)])
  }

  /** `v`, repeated `m` times in the outermost list of `t`. */
  function Filled(t: TypeRef, v: Value, m: nat): Value {
    match Nullable(t)
    case ListOf(u) => Items(Repeat(One(u, v), m))
    case u => One(u, v)
  }

  function Full1(s: Schema, m: nat, t: TypeRef, sub: seq<Selection>): Value
    decreases Size(sub), 2
  {
    if sub != [] && IsObject(s, NamedType(t)) then Filled(t, Fullest(s, m, NamedType(t), sub), m) else Null
  }

  function Fullest(s: Schema, m: nat, typ: string, sels: seq<Selection>): (v: Value)
    ensures v.Object?
    decreases Size(sels), 1
  {
    Object(typ, Entries(s, m, typ, sels))
  }

  function Entries(s: Schema, m: nat, typ: string, sels: seq<Selection>): seq<Entry>
    decreases Size(sels), 0
  {
    if sels == [] then []
    else
      SizeParts(sels);
      var rest := Entries(s, m, typ, sels[1..]);
      if sels[0].Field? && sels[0].name in FieldsOf(s, typ)
      then [Entry(sels[0].key, Full1(s, m, FieldsOf(s, typ)[sels[0].name], sels[0].sub))] + rest
      else rest
  }

  // ---------------------------------------------------------------- what it holds

  lemma {:induction false} ObjectsOne(t: TypeRef, v: Value)
    requires v.Object?
    ensures Objects(t, One(t, v)) == [v] && Below(One(t, v)) == [v]
  {
    match t
    case Named(_) =>
    case NonNull(u) => ObjectsOne(u, v);
    case ListOf(u) =>
      ObjectsOne(u, v);
      var vs := [One(u, v)];
      assert vs[1..] == [] && ObjectsIn(t, u, vs) == [v] + [] && BelowAll(Items(vs), vs) == [v] + [];
  }

  lemma {:induction false} ObjectsRepeat(t: TypeRef, u: TypeRef, v: Value, n: nat, all: Value)
    requires v.Object? && u < t && forall i :: 0 <= i < |Repeat(One(u, v), n)| ==> Repeat(One(u, v), n)[i] < all
    ensures ObjectsIn(t, u, Repeat(One(u, v), n)) == Repeat(v, n) == BelowAll(all, Repeat(One(u, v), n))
  {
    if n > 0 {
      var vs := Repeat(One(u, v), n);
      assert vs[1..] == Repeat(One(u, v), n - 1);
      ObjectsOne(u, v);
      ObjectsRepeat(t, u, v, n - 1, all);
    }
  }

  /** A filled value holds as many objects as the analysis multiplies by. */
  lemma ObjectsFilled(t: TypeRef, v: Value, m: nat)
    requires v.Object? && WellFormedRef(t)
    ensures Objects(t, Filled(t, v, m)) == Repeat(v, Factor(t, m)) == Below(Filled(t, v, m))
  {
    var u := Nullable(t);
    if u.ListOf? {
      ObjectsRepeat(u, u.of, v, m, Filled(t, v, m));
    } else {
      ObjectsOne(u, v);
      assert Repeat(v, 1) == [v] + [];
    }
  }

  /** Each field of `fs` finds its full value in `v`. */
  ghost predicate Supplies(s: Schema, m: nat, typ: string, fs: seq<Selection>, v: Value) {
    && v.Object?
    && forall i :: 0 <= i < |fs| && fs[i].Field? && fs[i].name in FieldsOf(s, typ) ==>
         Lookup(v.entries, fs[i].key) == Full1(s, m, FieldsOf(s, typ)[fs[i].name], fs[i].sub)
  }

  lemma {:induction false} FullestSupplies(s: Schema, m: nat, typ: string, sels: seq<Selection>, name: string)
    requires Plainly(s, typ, sels)
    ensures Supplies(s, m, typ, sels, Object(name, Entries(s, m, typ, sels)))
    decreases |sels|
  {
    if sels != [] {
      FullestSupplies(s, m, typ, sels[1..], name);
      var (es, rest) := (Entries(s, m, typ, sels), Entries(s, m, typ, sels[1..]));
      assert es[1..] == rest;
      forall i | 0 <= i < |sels| && sels[i].Field? && sels[i].name in FieldsOf(s, typ)
        ensures Lookup(es, sels[i].key) == Full1(s, m, FieldsOf(s, typ)[sels[i].name], sels[i].sub)
      {
        if i > 0 {
          assert sels[1..][i - 1] == sels[i];
          assert Lookup(es, sels[i].key) == Lookup(rest, sels[i].key);
        }
      }
    }
  }

  // ---------------------------------------------------------------- executing it

  lemma {:induction false} CollectsAll(frags: Fragments, keep: Keep, s: Schema, typ: string, sels: seq<Selection>, visited: set<string>)
    requires KeepsAll(keep) && Plainly(s, typ, sels)
    ensures Collect(frags, keep, typ, sels, visited) == (sels, visited)
    decreases |sels|
  {
    if sels != [] {
      assert keep(typ, sels[0]);
      CollectsAll(frags, keep, s, typ, sels[1..], visited);
      assert sels == [sels[0]] + sels[1..];
    }
  }

  /** A field whose key nobody else has is a group of its own. */
  lemma {:induction false} OwnGroup(f: Selection, fs: seq<Selection>)
    requires f.Field? && AllFields(fs) && forall i :: 0 <= i < |fs| ==> fs[i].key != f.key
    ensures GroupOf(f, fs) == [] && Others(f, fs) == fs
  {
    if fs != [] {
      OwnGroup(f, fs[1..]);
    }
  }

  /** Executing `n` copies of an object multiplies the cost and keeps the depth. */
  lemma {:induction false} ExecuteRepeat(e: Env, keep: Keep, typ: string, sels: seq<Selection>, v: Value, n: nat, level: int)
    requires v.Object? && IsObject(e.schema, typ)
    ensures var (one, all) := (Execute(e, keep, typ, sels, v, level), ExecuteObjects(e, keep, typ, sels, Repeat(v, n), level));
      && all.cost == one.cost * n
      && all.depth == if n == 0 then level - 1 else Max(one.depth, level - 1)
  {
    hide Execute;
    if n > 0 {
      ExecuteRepeat(e, keep, typ, sels, v, n - 1, level);
      assert Repeat(v, n)[1..] == Repeat(v, n - 1);
      Distribute(n - 1, 1, Execute(e, keep, typ, sels, v, level).cost);
    }
  }

  lemma {:induction false} PlainlyFields(s: Schema, typ: string, sels: seq<Selection>)
    requires Plainly(s, typ, sels)
    ensures AllFields(sels)
    decreases |sels|
  {
    if sels != [] {
      PlainlyFields(s, typ, sels[1..]);
    }
  }

  /** Same cost, and same depth unless nothing is selected. */
  predicate Attains(done: QueryCost, said: QueryCost, sels: seq<Selection>, level: int) {
    done.cost == said.cost && done.depth == if sels == [] then level - 1 else said.depth
  }

  ghost predicate Ready(e: Env, keep: Keep) { KeepsAll(keep) && e.multiplier >= 1 && ObjectSchema(e.schema) }

  /** Executing what a field of object type holds. */
  lemma {:induction false} HeldAttains(e: Env, keep: Keep, t: TypeRef, sub: seq<Selection>, level: int, visiting: set<string>, v: Value)
    requires Ready(e, keep) && WellFormedRef(t) && IsObject(e.schema, NamedType(t)) && Plainly(e.schema, NamedType(t), sub)
    requires sub != [] && v == Full1(e.schema, e.multiplier, t, sub)
    ensures var child := SelectionCost(e, NamedType(t), sub, level, visiting);
      ExecuteObjects(e, keep, NamedType(t), sub, Objects(t, v), level) == QueryCost(child.cost * Factor(t, e.multiplier), child.depth)
    decreases Size(sub), 3
  {
    var (o, n) := (Fullest(e.schema, e.multiplier, NamedType(t), sub), Factor(t, e.multiplier));
    assert v == Filled(t, o, e.multiplier);
    hide Full1, Filled, Fullest, Objects, Below, Plainly, ExecuteObjects, Execute, SelectionCost, Repeat, ObjectSchema;
    ObjectsFilled(t, o, e.multiplier);
    ExecuteAttains(e, keep, NamedType(t), sub, level, visiting);
    ExecuteRepeat(e, keep, NamedType(t), sub, o, n, level);
  }

  lemma {:induction false} FieldAttains(e: Env, keep: Keep, typ: string, f: Selection, v: Value, level: int, visiting: set<string>)
    requires Ready(e, keep) && f.Field? && Costed(e.schema, typ, f.name) && v.Object?
    requires var t := FieldsOf(e.schema, typ)[f.name];
      && (IsObject(e.schema, NamedType(t)) ==> Plainly(e.schema, NamedType(t), f.sub))
      && Lookup(v.entries, f.key) == Full1(e.schema, e.multiplier, t, f.sub)
    ensures ExecuteGroup(e, keep, typ, [f], f.name, f.key, v, level) == OneCost(e, typ, f, level, visiting)
    decreases SelSize(f), 0
  {
    var t := FieldsOf(e.schema, typ)[f.name];
    var held := Lookup(v.entries, f.key);
    assert [f][1..] == [] && Merged([f]) == f.sub + Merged([]) == f.sub;
    assert ExecuteObjects(e, keep, NamedType(t), f.sub, [], level + 1) == QueryCost(0, level);
    if f.sub != [] && IsObject(e.schema, NamedType(t)) {
      hide Plainly, Full1, Objects, ExecuteObjects, SelectionCost, Lookup;
      HeldAttains(e, keep, t, f.sub, level + 1, visiting, held);
    } else {
      assert held == Null;
      hide Plainly, Full1, Objects, ExecuteObjects, SelectionCost, Lookup;
      NullHasNoObjects(t);
    }
  }

  lemma ExecuteNext(e: Env, keep: Keep, typ: string, fs: seq<Selection>, v: Value, level: int)
    requires v.Object? && AllFields(fs) && fs != [] && forall i :: 0 < i < |fs| ==> fs[i].key != fs[0].key
    ensures ExecuteFields(e, keep, typ, fs, v, level)
         == Plus(ExecuteGroup(e, keep, typ, [fs[0]], fs[0].name, fs[0].key, v, level),
                 ExecuteFields(e, keep, typ, fs[1..], v, level))
  {
    hide ExecuteGroup;
    OwnGroup(fs[0], fs[1..]);
    assert GroupOf(fs[0], fs) == [fs[0]] && Others(fs[0], fs) == fs[1..];
  }

  lemma CostNext(e: Env, typ: string, fs: seq<Selection>, level: int, visiting: set<string>)
    requires fs != [] && fs[0].Field?
    ensures SelectionCost(e, typ, fs, level, visiting)
         == Plus(OneCost(e, typ, fs[0], level, visiting), SelectionCost(e, typ, fs[1..], level, visiting))
  {
    hide OneCost;
  }

  lemma {:induction false} FieldsAttain(e: Env, keep: Keep, typ: string, fs: seq<Selection>, v: Value, level: int, visiting: set<string>)
    requires Ready(e, keep) && Plainly(e.schema, typ, fs) && Supplies(e.schema, e.multiplier, typ, fs, v)
    ensures AllFields(fs)
    ensures Attains(ExecuteFields(e, keep, typ, fs, v, level), SelectionCost(e, typ, fs, level, visiting), fs, level)
    decreases Size(fs), 1
  {
    PlainlyFields(e.schema, typ, fs);
    if fs != [] {
      SizeParts(fs);
      ExecuteNext(e, keep, typ, fs, v, level);
      CostNext(e, typ, fs, level, visiting);
      var rest := fs[1..];
      assert Supplies(e.schema, e.multiplier, typ, rest, v);
      assert Plainly(e.schema, typ, rest);
      hide ExecuteFields, SelectionCost, ExecuteGroup, Full1, OneCost, Lookup;
      FieldAttains(e, keep, typ, fs[0], v, level, visiting);
      FieldsAttain(e, keep, typ, rest, v, level, visiting);
    }
  }

  lemma {:induction false} ExecuteAttains(e: Env, keep: Keep, typ: string, sels: seq<Selection>, level: int, visiting: set<string>)
    requires Ready(e, keep) && Plainly(e.schema, typ, sels)
    ensures Attains(Execute(e, keep, typ, sels, Fullest(e.schema, e.multiplier, typ, sels), level),
                    SelectionCost(e, typ, sels, level, visiting), sels, level)
    decreases Size(sels), 2
  {
    CollectsAll(e.frags, keep, e.schema, typ, sels, {});
    FullestSupplies(e.schema, e.multiplier, typ, sels, typ);
    FieldsAttain(e, keep, typ, sels, Fullest(e.schema, e.multiplier, typ, sels), level, visiting);
  }

  // ---------------------------------------------------------------- it is a permitted result

  lemma {:induction false} FullestFansOut(s: Schema, m: nat, typ: string, sels: seq<Selection>, v: Value)
    requires m >= 1 && ObjectSchema(s) && v.Object? && v.entries == Entries(s, m, typ, sels)
    ensures FanOut(v, m)
    decreases Size(sels), 0
  {
    if sels != [] {
      SizeParts(sels);
      var rest := Object(v.typeName, Entries(s, m, typ, sels[1..]));
      FullestFansOut(s, m, typ, sels[1..], rest);
      if sels[0].Field? && sels[0].name in FieldsOf(s, typ) {
        ValueFansOut(s, m, FieldsOf(s, typ)[sels[0].name], sels[0].sub);
      }
    }
  }

  lemma {:induction false} ValueFansOut(s: Schema, m: nat, t: TypeRef, sub: seq<Selection>)
    requires m >= 1 && ObjectSchema(s) && WellFormedRef(t)
    ensures FanOut(Full1(s, m, t, sub), m) && |Below(Full1(s, m, t, sub))| <= m
    decreases Size(sub), 1
  {
    if sub != [] && IsObject(s, NamedType(t)) {
      var o := Fullest(s, m, NamedType(t), sub);
      FullestFansOut(s, m, NamedType(t), sub, o);
      ObjectsFilled(t, o, m);
      OneFansOut(Nullable(t), o, m);
    }
  }

  lemma {:induction false} OneFansOut(t: TypeRef, v: Value, m: nat)
    requires FanOut(v, m)
    ensures FanOut(One(t, v), m)
    ensures t.ListOf? ==> FanOut(One(t.of, v), m)
  {
    if !t.Named? {
      OneFansOut(t.of, v, m);
    }
  }

  /**
   The bound is attained: a result with the permitted fan-out whose execution
   resolves exactly `cost` fields, nested exactly `depth` deep.
   */
  lemma BoundIsAttained(e: Env, keep: Keep, typ: string, sels: seq<Selection>, level: int) returns (v: Value)
    requires Ready(e, keep) && Plainly(e.schema, typ, sels) && sels != []
    ensures v.Object? && FanOut(v, e.multiplier)
    ensures Execute(e, keep, typ, sels, v, level) == SelectionCost(e, typ, sels, level, {})
  {
    v := Fullest(e.schema, e.multiplier, typ, sels);
    ExecuteAttains(e, keep, typ, sels, level, {});
    FullestFansOut(e.schema, e.multiplier, typ, sels, v);
  }
}

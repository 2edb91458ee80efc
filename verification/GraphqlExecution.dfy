/**
 Execution of a selection set (section 6.3 of the GraphQL specification,
 October 2021): CollectFields, grouping by response key, merged
 sub-selections, value completion.  Executing returns how many
 non-introspection fields were resolved and how deeply they nest, and both
 are bounded by the static analysis.
 */
module GraphqlExecution {
  import opened Wrappers
  import opened GraphqlSyntax
  import opened GraphqlCost

  /** Directives and type conditions: whether execution keeps a node on an object of a type. */
  type Keep = (string, Selection) -> bool

  // ---------------------------------------------------------------- CollectFields

  predicate AllFields(fs: seq<Selection>) { forall i :: 0 <= i < |fs| ==> fs[i].Field? }

  /** Each fragment is entered once per selection set, whichever spread comes first. */
  function CollectOne(frags: Fragments, keep: Keep, typ: string, sel: Selection, visited: set<string>)
    : (r: (seq<Selection>, set<string>))
    ensures AllFields(r.0) && visited <= r.1
    decreases Left(frags, visited), SelSize(sel), 0
  {
    if !keep(typ, sel) then ([], visited)
    else
      match sel
      case Field(_, _, _, _) => ([sel], visited)
      case Inline(_, sub) => Collect(frags, keep, typ, sub, visited)
      case Spread(n, _) =>
        if n !in frags || n in visited then ([], visited)
        else
          LeftShrinks(frags, visited, n);
          Collect(frags, keep, typ, frags[n], visited + {n})
  }

  function Collect(frags: Fragments, keep: Keep, typ: string, sels: seq<Selection>, visited: set<string>)
    : (r: (seq<Selection>, set<string>))
    ensures AllFields(r.0) && visited <= r.1
    decreases Left(frags, visited), Size(sels), 1
  {
    if sels == [] then ([], visited)
    else
      var (fs, v1) := CollectOne(frags, keep, typ, sels[0], visited);
      LeftMonotone(frags, visited, v1);
      var (gs, v2) := Collect(frags, keep, typ, sels[1..], v1);
      (fs + gs, v2)
  }

  // ---------------------------------------------------------------- grouping

  /**
   Validation (section 5.3.2) makes fields with one response key have one
   name, so grouping by both is grouping by response key.
   */
  predicate SameGroup(f: Selection, g: Selection)
    requires f.Field? && g.Field?
  {
    f.key == g.key && f.name == g.name
  }

  function GroupOf(f: Selection, fs: seq<Selection>): (r: seq<Selection>)
    requires f.Field? && AllFields(fs)
    ensures AllFields(r) && |r| <= |fs|
    ensures forall i :: 0 <= i < |r| ==> SameGroup(f, r[i])
  {
    if fs == [] then []
    else (if SameGroup(f, fs[0]) then [fs[0]] else []) + GroupOf(f, fs[1..])
  }

  function Others(f: Selection, fs: seq<Selection>): (r: seq<Selection>)
    requires f.Field? && AllFields(fs)
    ensures AllFields(r) && |r| <= |fs|
    ensures fs != [] && SameGroup(f, fs[0]) ==> |r| < |fs|
  {
    if fs == [] then []
    else (if SameGroup(f, fs[0]) then [] else [fs[0]]) + Others(f, fs[1..])
  }

  /** MergeSelectionSets. */
  function Merged(fs: seq<Selection>): seq<Selection>
    requires AllFields(fs)
  {
    if fs == [] then [] else fs[0].sub + Merged(fs[1..])
  }

  // ---------------------------------------------------------------- execution

  /** The object type a value is executed against: declared, or the runtime one if abstract. */
  function RuntimeType(s: Schema, declared: string, v: Value): Option<string>
    requires v.Object?
  {
    if IsObject(s, declared) then Some(declared)
    else if declared in s && s[declared].AbstractType? && v.typeName in s[declared].possible then Some(v.typeName)
    else None
  }

  /** ExecuteSelectionSet on one object; `level` is the nesting level of its fields. */
  function Execute(e: Env, keep: Keep, typ: string, sels: seq<Selection>, v: Value, level: int): QueryCost
    requires v.Object?
    decreases VSize(v), 1, 0
  {
    ExecuteFields(e, keep, typ, Collect(e.frags, keep, typ, sels, {}).0, v, level)
  }

  function ExecuteFields(e: Env, keep: Keep, typ: string, fs: seq<Selection>, v: Value, level: int): QueryCost
    requires v.Object? && AllFields(fs)
    decreases VSize(v), 0, |fs|
  {
    if fs == [] then QueryCost(0, level - 1)
    else
      Plus(ExecuteGroup(e, keep, typ, GroupOf(fs[0], fs), fs[0].name, fs[0].key, v, level),
           ExecuteFields(e, keep, typ, Others(fs[0], fs), v, level))
  }

  /** ExecuteField on a group: one resolver call, then the merged sub-selection on its objects. */
  function ExecuteGroup(e: Env, keep: Keep, typ: string, group: seq<Selection>, name: string, key: string,
                        v: Value, level: int): QueryCost
    requires v.Object? && AllFields(group)
    decreases VSize(v), 0, 0
  {
    if !Costed(e.schema, typ, name) then QueryCost(0, level - 1)
    else
      var t := FieldsOf(e.schema, typ)[name];
      var os := Objects(t, Lookup(v.entries, key));
      LookupSmaller(t, v, key);
      var below := ExecuteObjects(e, keep, NamedType(t), Merged(group), os, level + 1);
      QueryCost(1 + below.cost, Max(level, below.depth))
  }

  function ExecuteObjects(e: Env, keep: Keep, declared: string, sels: seq<Selection>, os: seq<Value>, level: int): QueryCost
    requires forall i :: 0 <= i < |os| ==> os[i].Object?
    decreases VSum(os), 2, |os|
  {
    if os == [] then QueryCost(0, level - 1)
    else
      var typ := RuntimeType(e.schema, declared, os[0]);
      Plus(if typ.None? then QueryCost(0, level - 1) else Execute(e, keep, typ.value, sels, os[0], level),
           ExecuteObjects(e, keep, declared, sels, os[1..], level))
  }

  lemma LookupSmaller(t: TypeRef, v: Value, key: string)
    requires v.Object?
    ensures VSum(Objects(t, Lookup(v.entries, key))) < VSize(v)
  {
  }

  lemma {:induction false} NullHasNoObjects(t: TypeRef)
    ensures Objects(t, Null) == []
  {
    if t.NonNull? {
      NullHasNoObjects(t.of);
    }
  }
}

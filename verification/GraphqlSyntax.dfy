/**
 Schemas, documents and result values: what `api/graphql_cost.py` reads from
 the schema and the query, and what an execution walks over.
 */
module GraphqlSyntax {
  import opened Wrappers

  // ---------------------------------------------------------------- schema

  datatype TypeRef = Named(name: string) | ListOf(of: TypeRef) | NonNull(of: TypeRef)

  datatype TypeDef =
    | ObjectType(fields: map<string, TypeRef>)
    | LeafType
    | AbstractType(possible: set<string>)  // interface or union: the runtime object decides

  type Schema = map<string, TypeDef>

  function NamedType(t: TypeRef): string {
    match t
    case Named(n) => n
    case ListOf(u) => NamedType(u)
    case NonNull(u) => NamedType(u)
  }

  function Nullable(t: TypeRef): TypeRef { if t.NonNull? then t.of else t }

  predicate IsList(t: TypeRef) { Nullable(t).ListOf? }

  predicate IsObject(s: Schema, name: string) { name in s && s[name].ObjectType? }

  function FieldsOf(s: Schema, name: string): map<string, TypeRef> {
    if IsObject(s, name) then s[name].fields else map[]
  }

  // ---------------------------------------------------------------- documents

  /**
   `meta` stands for the directives, arguments and type condition of a node;
   the cost analysis ignores them, execution may skip a node because of them.
   A selection set in a document is never empty, so an empty `sub` means the
   field has none.
   */
  datatype Selection =
    | Field(name: string, key: string, meta: string, sub: seq<Selection>)
    | Inline(meta: string, sels: seq<Selection>)
    | Spread(frag: string, meta: string)

  type Fragments = map<string, seq<Selection>>

  datatype Operation = Operation(name: Option<string>, kind: string, sels: seq<Selection>)

  /** Fragment definitions in document order; a later one shadows an earlier one. */
  datatype Document = Document(operations: seq<Operation>, fragments: seq<(string, seq<Selection>)>)

  function FragmentMap(defs: seq<(string, seq<Selection>)>): Fragments {
    if defs == [] then map[]
    else FragmentMap(defs[..|defs| - 1])[defs[|defs| - 1].0 := defs[|defs| - 1].1]
  }

  predicate Introspection(name: string) { |name| >= 2 && name[0] == '_' && name[1] == '_' }

  function SelSize(s: Selection): (n: nat)
    ensures n > 0
  {
    match s
    case Field(_, _, _, sub) => 1 + Size(sub)
    case Inline(_, sels) => 1 + Size(sels)
    case Spread(_, _) => 1
  }

  function Size(sels: seq<Selection>): nat {
    if sels == [] then 0 else SelSize(sels[0]) + Size(sels[1..])
  }

  lemma SizeParts(sels: seq<Selection>)
    requires sels != []
    ensures Size(sels[1..]) < Size(sels)
    ensures sels[0].Field? ==> Size(sels[0].sub) < Size(sels)
    ensures sels[0].Inline? ==> Size(sels[0].sels) < Size(sels)
  {
  }

  /** Fragments an analysis that has met `seen` may still enter. */
  function Left(frags: Fragments, seen: set<string>): nat { |frags.Keys - seen| }

  lemma LeftShrinks(frags: Fragments, seen: set<string>, n: string)
    requires n in frags && n !in seen
    ensures Left(frags, seen + {n}) < Left(frags, seen)
  {
    assert frags.Keys - (seen + {n}) == (frags.Keys - seen) - {n};
  }

  lemma LeftMonotone(frags: Fragments, a: set<string>, b: set<string>)
    requires a <= b
    ensures Left(frags, b) <= Left(frags, a)
  {
    var x, y := frags.Keys - a, frags.Keys - b;
    assert y <= x;
    SubsetCard(y, x);
  }

  lemma {:induction false} SubsetCard(y: set<string>, x: set<string>)
    requires y <= x
    ensures |y| <= |x|
    decreases y
  {
    if y != {} {
      var e :| e in y;
      SubsetCard(y - {e}, x - {e});
    }
  }

  // ---------------------------------------------------------------- values

  /** What resolvers returned: any tree.  An object's entries are keyed by response key. */
  datatype Value =
    | Null
    | Leaf
    | Items(items: seq<Value>)
    | Object(typeName: string, entries: seq<Entry>)

  datatype Entry = Entry(key: string, value: Value)

  function VSize(v: Value): (n: nat)
    ensures n > 0
  {
    match v
    case Null => 1
    case Leaf => 1
    case Items(vs) => 1 + VSum(vs)
    case Object(_, es) => 1 + ESum(es)
  }

  function VSum(vs: seq<Value>): nat {
    if vs == [] then 0 else VSize(vs[0]) + VSum(vs[1..])
  }

  function ESum(es: seq<Entry>): nat {
    if es == [] then 0 else VSize(es[0].value) + ESum(es[1..])
  }

  function Lookup(es: seq<Entry>, key: string): (v: Value)
    ensures VSize(v) <= 1 + ESum(es)
    ensures v == Null || VSize(v) <= ESum(es)
  {
    if es == [] then Null
    else if es[0].key == key then es[0].value
    else Lookup(es[1..], key)
  }

  lemma {:induction false} VSumAppend(a: seq<Value>, b: seq<Value>)
    ensures VSum(a + b) == VSum(a) + VSum(b)
  {
    if a == [] {
      assert a + b == b;
    } else {
      assert (a + b)[1..] == a[1..] + b;
      VSumAppend(a[1..], b);
    }
  }

  /** CompleteValue: the objects a field of type `t` holds in `v`, lists flattened. */
  function Objects(t: TypeRef, v: Value): (os: seq<Value>)
    ensures forall i :: 0 <= i < |os| ==> os[i].Object?
    ensures VSum(os) <= VSize(v)
    decreases t, 0, 0
  {
    match t
    case Named(_) => if v.Object? then [v] else []
    case NonNull(u) => Objects(u, v)
    case ListOf(u) => if v.Items? then ObjectsIn(t, u, v.items) else []
  }

  function ObjectsIn(t: TypeRef, u: TypeRef, vs: seq<Value>): (os: seq<Value>)
    requires u < t
    ensures forall i :: 0 <= i < |os| ==> os[i].Object?
    ensures VSum(os) <= VSum(vs)
    decreases u, 1, |vs|
  {
    if vs == [] then []
    else
      var a, b := Objects(u, vs[0]), ObjectsIn(t, u, vs[1..]);
      VSumAppend(a, b);
      a + b
  }

  /** All objects below `v`, whatever lists they are nested in. */
  function Below(v: Value): (os: seq<Value>)
    ensures VSum(os) <= VSize(v)
    decreases v, 1
  {
    match v
    case Object(_, _) => [v]
    case Items(vs) => BelowAll(v, vs)
    case _ => []
  }

  function BelowAll(v: Value, vs: seq<Value>): (os: seq<Value>)
    requires forall i :: 0 <= i < |vs| ==> vs[i] < v
    ensures VSum(os) <= VSum(vs)
    decreases v, 0, |vs|
  {
    if vs == [] then []
    else
      var a, b := Below(vs[0]), BelowAll(v, vs[1..]);
      VSumAppend(a, b);
      a + b
  }
}

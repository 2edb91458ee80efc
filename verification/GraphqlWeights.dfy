/**
 What the cost and the depth of `api/graphql_cost.py` count.  A document is
 flattened into the paths of its fields without looking at the schema; each path
 is then weighed on the schema alone.
 */
module GraphqlWeights {
  import opened GraphqlSyntax
  import opened GraphqlCost
  import opened GraphqlLimiter

  // ---------------------------------------------------------------- paths of a document

  /** Every path behind one more field. */
  function Under(name: string, ps: seq<seq<string>>): (r: seq<seq<string>>)
    ensures |r| == |ps| && forall i :: 0 <= i < |r| ==> r[i] == [name] + ps[i]
  {
    seq(|ps|, i requires 0 <= i < |ps| => [name] + ps[i])
  }

  predicate NonEmpty(ps: seq<seq<string>>) { forall i :: 0 <= i < |ps| ==> ps[i] != [] }

  function PathsOf(frags: Fragments, sel: Selection, visiting: set<string>): (ps: seq<seq<string>>)
    ensures NonEmpty(ps)
    decreases Left(frags, visiting), SelSize(sel), 0
  {
    match sel
    case Field(name, _, _, sub) => [[name]] + Under(name, Paths(frags, sub, visiting))
    case Inline(_, sub) => Paths(frags, sub, visiting)
    case Spread(n, _) =>
      if n !in frags || n in visiting then []
      else
        LeftShrinks(frags, visiting, n);
        Paths(frags, frags[n], visiting + {n})
  }

  /** The field names from the top down to each field, fragments entered as the analysis enters them. */
  function Paths(frags: Fragments, sels: seq<Selection>, visiting: set<string>): (ps: seq<seq<string>>)
    ensures NonEmpty(ps)
    decreases Left(frags, visiting), Size(sels), 1
  {
    if sels == [] then []
    else PathsOf(frags, sels[0], visiting) + Paths(frags, sels[1..], After(frags, sels[0], visiting))
  }

  function OpensOf(frags: Fragments, sel: Selection, visiting: set<string>): seq<seq<string>>
    decreases Left(frags, visiting), SelSize(sel), 0
  {
    match sel
    case Field(name, _, _, sub) => if sub == [] then [] else [[name]] + Under(name, Opens(frags, sub, visiting))
    case Inline(_, sub) => Opens(frags, sub, visiting)
    case Spread(n, _) =>
      if n !in frags || n in visiting then []
      else
        LeftShrinks(frags, visiting, n);
        Opens(frags, frags[n], visiting + {n})
  }

  /** The field names from the top down to each field that has a selection set. */
  function Opens(frags: Fragments, sels: seq<Selection>, visiting: set<string>): seq<seq<string>>
    decreases Left(frags, visiting), Size(sels), 1
  {
    if sels == [] then [] else OpensOf(frags, sels[0], visiting) + Opens(frags, sels[1..], After(frags, sels[0], visiting))
  }

  // ---------------------------------------------------------------- paths on a schema

  /** A field the object type has, and not one of introspection. */
  predicate Known(s: Schema, parent: string, name: string) {
    parent in s && s[parent].ObjectType? && name in s[parent].fields && !("__" <= name)
  }

  predicate List(t: TypeRef) { t.ListOf? || (t.NonNull? && t.of.ListOf?) }

  /** `n` is what is left of the type when lists and non-null marks are taken off. */
  predicate Wraps(t: TypeRef, n: string) {
    match t
    case Named(m) => m == n
    case ListOf(u) => Wraps(u, n)
    case NonNull(u) => Wraps(u, n)
  }

  lemma {:induction false} NamedTypeIsWrapped(t: TypeRef, n: string)
    ensures Wraps(t, n) <==> NamedType(t) == n
  {
    if !t.Named? {
      NamedTypeIsWrapped(t.of, n);
    }
  }

  /** How often the field at the end of the path counts: once for every multiple of the lists above it, if all fields are known. */
  function Weight(e: Env, parent: string, path: seq<string>): int
    requires path != []
    decreases |path|
  {
    if !Known(e.schema, parent, path[0]) then 0
    else if |path| == 1 then 1
    else
      var t := e.schema[parent].fields[path[0]];
      Weight(e, NamedType(t), path[1..]) * if List(t) then e.multiplier else 1
  }

  function TotalWeight(e: Env, parent: string, ps: seq<seq<string>>): int
    requires NonEmpty(ps)
  {
    if ps == [] then 0 else Weight(e, parent, ps[0]) + TotalWeight(e, parent, ps[1..])
  }

  /** The path leads through known fields to an object type. */
  predicate Leads(s: Schema, parent: string, path: seq<string>)
    decreases |path|
  {
    path == [] ||
    (&& Known(s, parent, path[0])
     && var child := NamedType(s[parent].fields[path[0]]);
        child in s && s[child].ObjectType? && Leads(s, child, path[1..]))
  }

  /** `n` is the number of fields on the longest of the paths that lead anywhere, 0 if none does. */
  ghost predicate Longest(s: Schema, parent: string, ps: seq<seq<string>>, n: int) {
    && n >= 0 && (forall i :: 0 <= i < |ps| && Leads(s, parent, ps[i]) ==> |ps[i]| <= n)
    && (n == 0 || exists i :: 0 <= i < |ps| && Leads(s, parent, ps[i]) && |ps[i]| == n)
  }

  // ---------------------------------------------------------------- cost

  lemma KnownIsCosted(s: Schema, parent: string, name: string)
    ensures Known(s, parent, name) <==> Costed(s, parent, name)
    ensures Known(s, parent, name) ==> FieldsOf(s, parent)[name] == s[parent].fields[name]
  {
    assert "__" == ['_', '_'];
  }

  lemma {:induction false} TotalAppend(e: Env, parent: string, a: seq<seq<string>>, b: seq<seq<string>>)
    requires NonEmpty(a) && NonEmpty(b)
    ensures TotalWeight(e, parent, a + b) == TotalWeight(e, parent, a) + TotalWeight(e, parent, b)
  {
    if a == [] {
      assert a + b == b;
    } else {
      assert (a + b)[1..] == a[1..] + b;
      TotalAppend(e, parent, a[1..], b);
    }
  }

  /** How often what is below a field counts. */
  function Times(e: Env, parent: string, name: string): int {
    if Known(e.schema, parent, name) && List(e.schema[parent].fields[name]) then e.multiplier else 1
  }

  lemma WeightUnder(e: Env, parent: string, name: string, p: seq<string>)
    requires p != []
    ensures Weight(e, parent, [name] + p) ==
      if Known(e.schema, parent, name) then Weight(e, NamedType(e.schema[parent].fields[name]), p) * Times(e, parent, name) else 0
  {
    assert ([name] + p)[0] == name && ([name] + p)[1..] == p;
  }

  lemma Distributes(a: int, b: int, f: int)
    ensures a * f + b * f == (a + b) * f
  {
  }

  /** A field multiplies what is below it; below an unknown field nothing counts. */
  lemma {:induction false} TotalUnder(e: Env, parent: string, name: string, ps: seq<seq<string>>)
    requires NonEmpty(ps)
    ensures TotalWeight(e, parent, Under(name, ps)) ==
      if Known(e.schema, parent, name) then TotalWeight(e, NamedType(e.schema[parent].fields[name]), ps) * Times(e, parent, name) else 0
    decreases |ps|
  {
    if ps != [] {
      var (all, f) := (Under(name, ps), Times(e, parent, name));
      assert all[1..] == Under(name, ps[1..]) && all[0] == [name] + ps[0];
      TotalUnder(e, parent, name, ps[1..]);
      WeightUnder(e, parent, name, ps[0]);
      hide Weight, Times;
      if Known(e.schema, parent, name) {
        var child := NamedType(e.schema[parent].fields[name]);
        Distributes(Weight(e, child, ps[0]), TotalWeight(e, child, ps[1..]), f);
      }
    }
  }

  lemma {:induction false} NoObjectNoWeight(e: Env, parent: string, ps: seq<seq<string>>)
    requires NonEmpty(ps) && !IsObject(e.schema, parent)
    ensures TotalWeight(e, parent, ps) == 0
    decreases |ps|
  {
    if ps != [] {
      NoObjectNoWeight(e, parent, ps[1..]);
    }
  }

  lemma {:induction false} FieldWeighs(e: Env, parent: string, name: string, sub: seq<Selection>, visiting: set<string>, child: QueryCost, depth: int)
    requires Known(e.schema, parent, name)
    requires var t := e.schema[parent].fields[name];
      child.cost == if sub != [] && IsObject(e.schema, NamedType(t)) then TotalWeight(e, NamedType(t), Paths(e.frags, sub, visiting)) else 0
    ensures FieldPlus(e.schema[parent].fields[name], e.multiplier, depth, child).cost
            == TotalWeight(e, parent, [[name]] + Under(name, Paths(e.frags, sub, visiting)))
  {
    var ps := Paths(e.frags, sub, visiting);
    var t := e.schema[parent].fields[name];
    TotalUnder(e, parent, name, ps);
    if !IsObject(e.schema, NamedType(t)) {
      NoObjectNoWeight(e, NamedType(t), ps);
    }
    TotalAppend(e, parent, [[name]], Under(name, ps));
    assert TotalWeight(e, parent, [[name]]) == 1 by {
      assert [[name]][1..] == [];
    }
  }

  lemma {:induction false} OneCostWeighs(e: Env, parent: string, sel: Selection, depth: int, visiting: set<string>)
    ensures OneCost(e, parent, sel, depth, visiting).cost == TotalWeight(e, parent, PathsOf(e.frags, sel, visiting))
    decreases Left(e.frags, visiting), SelSize(sel), 0
  {
    match sel
    case Field(name, _, _, sub) =>
      KnownIsCosted(e.schema, parent, name);
      if !Known(e.schema, parent, name) {
        var ps := Paths(e.frags, sub, visiting);
        TotalUnder(e, parent, name, ps);
        TotalAppend(e, parent, [[name]], Under(name, ps));
        assert [[name]][1..] == [];
      } else {
        var t := e.schema[parent].fields[name];
        if sub != [] && IsObject(e.schema, NamedType(t)) {
          CostWeighs(e, NamedType(t), sub, depth + 1, visiting);
          FieldWeighs(e, parent, name, sub, visiting, SelectionCost(e, NamedType(t), sub, depth + 1, visiting), depth);
        } else {
          FieldWeighs(e, parent, name, sub, visiting, QueryCost(0, depth), depth);
        }
      }
    case Inline(_, sub) => CostWeighs(e, parent, sub, depth, visiting);
    case Spread(n, _) =>
      if n in e.frags && n !in visiting {
        LeftShrinks(e.frags, visiting, n);
        CostWeighs(e, parent, e.frags[n], depth, visiting + {n});
      }
  }

  /** The cost of any selection set of any document is the weight of its fields' paths. */
  lemma {:induction false} CostWeighs(e: Env, parent: string, sels: seq<Selection>, depth: int, visiting: set<string>)
    ensures SelectionCost(e, parent, sels, depth, visiting).cost == TotalWeight(e, parent, Paths(e.frags, sels, visiting))
    decreases Left(e.frags, visiting), Size(sels), 1
  {
    if sels != [] {
      var next := After(e.frags, sels[0], visiting);
      OneCostWeighs(e, parent, sels[0], depth, visiting);
      CostWeighs(e, parent, sels[1..], depth, next);
      TotalAppend(e, parent, PathsOf(e.frags, sels[0], visiting), Paths(e.frags, sels[1..], next));
    }
  }

  // ---------------------------------------------------------------- depth

  /** How much deeper than its own depth a selection, or a selection set, goes. */
  function OneRise(e: Env, parent: string, sel: Selection, depth: int, visiting: set<string>): int {
    OneCost(e, parent, sel, depth, visiting).depth - depth
  }

  function Rise(e: Env, parent: string, sels: seq<Selection>, depth: int, visiting: set<string>): int {
    SelectionCost(e, parent, sels, depth, visiting).depth - depth
  }

  lemma RiseIs(e: Env, parent: string, sels: seq<Selection>, depth: int, visiting: set<string>)
    requires sels != []
    ensures Rise(e, parent, sels, depth, visiting)
            == Max(OneRise(e, parent, sels[0], depth, visiting), Rise(e, parent, sels[1..], depth, After(e.frags, sels[0], visiting)))
  {
  }

  lemma FieldRise(e: Env, parent: string, sel: Selection, depth: int, visiting: set<string>)
    requires sel.Field?
    ensures OneRise(e, parent, sel, depth, visiting) ==
      if Known(e.schema, parent, sel.name) && sel.sub != [] && IsObject(e.schema, NamedType(e.schema[parent].fields[sel.name]))
      then Rise(e, NamedType(e.schema[parent].fields[sel.name]), sel.sub, depth + 1, visiting) + 1 else 0
  {
    KnownIsCosted(e.schema, parent, sel.name);
    hide SelectionCost, Known;
  }

  lemma {:induction false} OneDepthReaches(e: Env, parent: string, sel: Selection, depth: int, visiting: set<string>)
    ensures Longest(e.schema, parent, OpensOf(e.frags, sel, visiting), OneRise(e, parent, sel, depth, visiting))
    decreases Left(e.frags, visiting), SelSize(sel), 0
  {
    match sel
    case Field(name, _, _, sub) =>
      FieldRise(e, parent, sel, depth, visiting);
      if sub != [] {
        var below := Opens(e.frags, sub, visiting);
        if Known(e.schema, parent, name) && IsObject(e.schema, NamedType(e.schema[parent].fields[name])) {
          var child := NamedType(e.schema[parent].fields[name]);
          DepthReaches(e, child, sub, depth + 1, visiting);
          hide Longest, OneRise, Rise;
          LongestUnder(e.schema, parent, name, below, Rise(e, child, sub, depth + 1, visiting));
        } else {
          hide Longest, OneRise, Rise;
          NothingUnder(e.schema, parent, name, below);
        }
      }
    case Inline(_, sub) => DepthReaches(e, parent, sub, depth, visiting);
    case Spread(n, _) =>
      if n in e.frags && n !in visiting {
        LeftShrinks(e.frags, visiting, n);
        DepthReaches(e, parent, e.frags[n], depth, visiting + {n});
      }
  }

  /** The depth of any selection set, counted from its own, is the length of the longest path to a further one. */
  lemma {:induction false} DepthReaches(e: Env, parent: string, sels: seq<Selection>, depth: int, visiting: set<string>)
    ensures Longest(e.schema, parent, Opens(e.frags, sels, visiting), Rise(e, parent, sels, depth, visiting))
    decreases Left(e.frags, visiting), Size(sels), 1
  {
    if sels != [] {
      var next := After(e.frags, sels[0], visiting);
      OneDepthReaches(e, parent, sels[0], depth, visiting);
      DepthReaches(e, parent, sels[1..], depth, next);
      RiseIs(e, parent, sels, depth, visiting);
      hide Longest, OneRise, Rise, OpensOf, After;
      LongestAppend(e.schema, parent, OpensOf(e.frags, sels[0], visiting), Opens(e.frags, sels[1..], next),
                    OneRise(e, parent, sels[0], depth, visiting), Rise(e, parent, sels[1..], depth, next));
    }
  }

  lemma LongestAppend(s: Schema, parent: string, a: seq<seq<string>>, b: seq<seq<string>>, m: int, n: int)
    requires Longest(s, parent, a, m) && Longest(s, parent, b, n)
    ensures Longest(s, parent, a + b, Max(m, n))
  {
    var all := a + b;
    if m != 0 && m >= n {
      var i :| 0 <= i < |a| && Leads(s, parent, a[i]) && |a[i]| == m;
      assert all[i] == a[i];
    } else if n != 0 {
      var j :| 0 <= j < |b| && Leads(s, parent, b[j]) && |b[j]| == n;
      assert all[|a| + j] == b[j];
    }
  }

  lemma LongestUnder(s: Schema, parent: string, name: string, ps: seq<seq<string>>, n: int)
    requires Known(s, parent, name) && IsObject(s, NamedType(s[parent].fields[name]))
    requires Longest(s, NamedType(s[parent].fields[name]), ps, n)
    ensures Longest(s, parent, [[name]] + Under(name, ps), n + 1)
  {
    var (child, all) := (NamedType(s[parent].fields[name]), [[name]] + Under(name, ps));
    assert all[0] == [name] && [name][1..] == [] && Leads(s, parent, all[0]);
    forall i | 1 <= i < |all| ensures Leads(s, parent, all[i]) <==> Leads(s, child, ps[i - 1]) {
      assert all[i][0] == name && all[i][1..] == ps[i - 1];
    }
    if n != 0 {
      var i :| 0 <= i < |ps| && Leads(s, child, ps[i]) && |ps[i]| == n;
      assert Leads(s, parent, all[i + 1]);
    }
  }

  /** Nothing through a field that is unknown, or of no object type, leads anywhere. */
  lemma NothingUnder(s: Schema, parent: string, name: string, ps: seq<seq<string>>)
    requires !(Known(s, parent, name) && IsObject(s, NamedType(s[parent].fields[name])))
    ensures Longest(s, parent, [[name]] + Under(name, ps), 0)
  {
    var all := [[name]] + Under(name, ps);
    forall i | 0 <= i < |all| ensures !Leads(s, parent, all[i]) {
      assert all[i][0] == name;
    }
  }

  // ---------------------------------------------------------------- operations

  /** What the limiter is told about the one operation asked for: the weight of its fields' paths, and its longest path. */
  lemma OperationCounts(schema: Schema, roots: map<string, string>, doc: Document, name: string, multiplier: int, i: nat)
    requires OnlyOne(doc.operations, name, i) && doc.operations[i].kind in roots
    ensures var e := Env(schema, FragmentMap(doc.fragments), multiplier);
      var (op, total) := (doc.operations[i], DocumentCost(schema, roots, doc, name, multiplier));
      && total.cost == TotalWeight(e, roots[op.kind], Paths(e.frags, op.sels, {}))
      && Longest(schema, roots[op.kind], Opens(e.frags, op.sels, {}), total.depth - 1)
  {
    var (e, op) := (Env(schema, FragmentMap(doc.fragments), multiplier), doc.operations[i]);
    CostWeighs(e, roots[op.kind], op.sels, 1, {});
    DepthReaches(e, roots[op.kind], op.sels, 1, {});
    hide SelectionCost, DocumentCost, Paths, Opens, Longest, TotalWeight, FragmentMap;
    CostOfNamedOperation(schema, roots, doc, name, multiplier);
  }
}

/**
 * The example graph of the repository's test script: an `int_add` vertex
 * whose sum feeds keyword `n` of a `str_repeat` vertex named `repeat`.
 * Its inputs are `x0`, `y0` (of `int_add`) and `s0` (of `repeat`), its
 * only output is the repeated string, and calling it with `s0='a', x0=2,
 * y0=3` gives `('aaaaa',)`, whatever the iteration order of the vertices.
 */
module Scenario {
  import opened Wrappers
  import opened Vertices
  import opened GraphSpec
  import opened Semantics
  import opened Arguments
  import opened Execution
  import opened Composer
  import opened Text
  import Primitives

  /** The keyword arguments of the call `g(s0='a', x0=2, y0=3)`. */
  const Kwargs: Env := map["s0" := StrV("a"), "x0" := IntV(2), "y0" := IntV(3)]

  /** `adjacency` of the test graph: the sum feeds `n` of `b`; the output of `b` is open. */
  function TestAdjacency(a: Vertex, b: Vertex): Adjacency {
    map[a := [Some([(b, "n")])], b := [None]]
  }

  /** `argdeps` of the test graph: only `n` of `b` is bound, to output 0 of `a`. */
  function TestArgDeps(a: Vertex, b: Vertex): ArgDeps {
    map[a := map["x" := None, "y" := None], b := map["s" := None, "n" := Some((a, 0))]]
  }

  /** The arguments named by `_get_arguments`, in either iteration order. */
  function TestArgMap(a: Vertex, b: Vertex): ArgMap {
    map[(a, "x") := "x0", (a, "y") := "y0", (b, "s") := "s0"]
  }

  predicate TestVertices(a: Vertex, b: Vertex) {
    a != b && a.kind == FuncKind(IntAdd) && b.kind == FuncKind(StrRepeat)
  }

  /** Two distinct vertices are enumerated in one of two orders. */
  lemma TwoOrders(a: Vertex, b: Vertex, iter: seq<Vertex>)
    requires a != b && IsEnumeration(iter, {a, b})
    ensures iter == [a, b] || iter == [b, a]
  {
    DistinctCard(iter);
    assert |Elems(iter)| == 2;
    assert iter[0] in {a, b} && iter[1] in {a, b};
    assert iter[0] != iter[1];
  }

  /** `b` reads from `a` and `a` from nobody, so `[a, b]` is the only topological order. */
  lemma TestOrder(a: Vertex, b: Vertex, ord: seq<Vertex>)
    requires TestVertices(a, b)
    ensures IsTopoOrder({a, b}, TestArgDeps(a, b), [a, b])
    ensures IsTopoOrder({a, b}, TestArgDeps(a, b), ord) ==> ord == [a, b]
  {
    var deps := TestArgDeps(a, b);
    assert DependsOn(deps, b, a) by {
      assert IsBound(deps, b, "n") && deps[b]["n"].value.0 == a;
    }
    forall p | DependsOn(deps, b, p)
      ensures p == a
    {
      var k :| IsBound(deps, b, k) && deps[b][k].value.0 == p;
      assert k == "s" || k == "n";
    }
    assert forall k :: !IsBound(deps, a, k);
    assert [a, b][..1] == [a];
    assert Elems([a]) == {a};
    assert ProducersFirst(deps, [a, b]);
    if IsTopoOrder({a, b}, deps, ord) {
      TwoOrders(a, b, ord);
      assert ord[..0] == [];
      assert ProducersIn(deps, ord[0], Elems(ord[..0]));
      assert ord[0] != b;
    }
  }

  /** The declared keywords of the two vertices. */
  lemma TestParams(a: Vertex, b: Vertex)
    requires TestVertices(a, b)
    ensures a.Params() == [Param("x", IntT), Param("y", IntT)] && b.Params() == [Param("s", StrT), Param("n", IntT)]
    ensures a.Arity() == 1 && b.Arity() == 1
    ensures a.Keywords() == {"x", "y"} && b.Keywords() == {"s", "n"}
  {
  }

  /** The unbound keywords of a vertex with two parameters, in order. */
  lemma OccurrencesOfPair(deps: ArgDeps, v: Vertex, p: Param, q: Param)
    ensures VertexOccurrences(deps, v, [p, q]) ==
      (if IsBound(deps, v, p.kwd) then [] else [(v, p)]) + (if IsBound(deps, v, q.kwd) then [] else [(v, q)])
  {
    assert [p, q][..1] == [p] && [p][..0] == [];
    assert VertexOccurrences(deps, v, [p]) == if IsBound(deps, v, p.kwd) then [] else [(v, p)];
  }

  /** The unbound keywords of `a` are `x` and `y`, those of `b` only `s`. */
  lemma TestVertexOccurrences(a: Vertex, b: Vertex)
    requires TestVertices(a, b)
    ensures VertexOccurrences(TestArgDeps(a, b), a, a.Params()) == [(a, Param("x", IntT)), (a, Param("y", IntT))]
    ensures VertexOccurrences(TestArgDeps(a, b), b, b.Params()) == [(b, Param("s", StrT))]
  {
    TestParams(a, b);
    OccurrencesOfPair(TestArgDeps(a, b), a, Param("x", IntT), Param("y", IntT));
    OccurrencesOfPair(TestArgDeps(a, b), b, Param("s", StrT), Param("n", IntT));
  }

  /** The occurrences of a two-vertex enumeration are those of its first vertex, then its second. */
  lemma OccurrencesOfTwo(deps: ArgDeps, u: Vertex, w: Vertex)
    ensures Occurrences(deps, [u, w]) == VertexOccurrences(deps, u, u.Params()) + VertexOccurrences(deps, w, w.Params())
  {
    assert [u, w][..1] == [u] && [u][..0] == [];
    assert Occurrences(deps, [u]) == VertexOccurrences(deps, u, u.Params());
  }

  /** The unbound keywords, vertex by vertex in iteration order. */
  lemma TestOccurrences(a: Vertex, b: Vertex)
    requires TestVertices(a, b)
    ensures Occurrences(TestArgDeps(a, b), [a, b]) == [(a, Param("x", IntT)), (a, Param("y", IntT)), (b, Param("s", StrT))]
    ensures Occurrences(TestArgDeps(a, b), [b, a]) == [(b, Param("s", StrT)), (a, Param("x", IntT)), (a, Param("y", IntT))]
  {
    TestVertexOccurrences(a, b);
    OccurrencesOfTwo(TestArgDeps(a, b), a, b);
    OccurrencesOfTwo(TestArgDeps(a, b), b, a);
  }

  /** Three occurrences of distinct keywords get distinct names `kwd0`. */
  lemma NamesOfThree(occ: seq<Occurrence>)
    requires |occ| == 3
    requires occ[0].1.kwd != occ[1].1.kwd && occ[0].1.kwd != occ[2].1.kwd && occ[1].1.kwd != occ[2].1.kwd
    ensures forall j :: 0 <= j < 3 ==> ArgName(occ, j) == occ[j].1.kwd + "0"
    ensures forall i, j :: 0 <= i < j < 3 ==> ArgName(occ, i) != ArgName(occ, j)
  {
    FirstNames(occ);
    forall i, j | 0 <= i < j < 3
      ensures ArgName(occ, i) != ArgName(occ, j)
    {
      var x, y := occ[i].1.kwd, occ[j].1.kwd;
      if |x| == |y| {
        assert (x + "0")[..|x|] == x && (y + "0")[..|y|] == y;
      } else {
        assert |x + "0"| != |y + "0"|;
      }
    }
  }

  /** `inp_type` of three occurrences of distinct keywords. */
  lemma TableOfThree(occ: seq<Occurrence>)
    requires |occ| == 3
    requires occ[0].1.kwd != occ[1].1.kwd && occ[0].1.kwd != occ[2].1.kwd && occ[1].1.kwd != occ[2].1.kwd
    ensures ArgTable(occ) ==
      [(occ[0].1.kwd + "0", occ[0].1.ty), (occ[1].1.kwd + "0", occ[1].1.ty), (occ[2].1.kwd + "0", occ[2].1.ty)]
  {
    NamesOfThree(occ);
    ArgTableInOrder(occ);
  }

  /** `arg_map` of three occurrences of distinct keywords. */
  lemma MapOfThree(occ: seq<Occurrence>)
    requires |occ| == 3
    requires occ[0].1.kwd != occ[1].1.kwd && occ[0].1.kwd != occ[2].1.kwd && occ[1].1.kwd != occ[2].1.kwd
    ensures ArgMapOf(occ) == map[(occ[0].0, occ[0].1.kwd) := occ[0].1.kwd + "0", (occ[1].0, occ[1].1.kwd) := occ[1].1.kwd + "0",
                                 (occ[2].0, occ[2].1.kwd) := occ[2].1.kwd + "0"]
  {
    NamesOfThree(occ);
    ArgNamePrefix(occ, 1, 0);
    ArgNamePrefix(occ, 2, 1);
    var p0 := occ[..1];
    assert occ[..2][..1] == p0 && p0[..0] == [] && p0[0] == occ[0];
    assert ArgMapOf(p0) == map[(occ[0].0, occ[0].1.kwd) := ArgName(occ, 0)];
  }

  /** A map display does not depend on the order of distinct keys. */
  lemma RotateMap<K, V>(k1: K, v1: V, k2: K, v2: V, k3: K, v3: V)
    requires k1 != k2 && k1 != k3
    ensures map[k1 := v1, k2 := v2, k3 := v3] == map[k2 := v2, k3 := v3, k1 := v1]
  {
  }

  lemma KeywordNames()
    ensures "x" + "0" == "x0" && "y" + "0" == "y0" && "s" + "0" == "s0"
  {
  }

  /** Iterating `a` first: `inp_type` is `x0`, `y0`, `s0`. */
  lemma TestArgumentsAB(a: Vertex, b: Vertex)
    requires TestVertices(a, b)
    ensures ArgMapOf(Occurrences(TestArgDeps(a, b), [a, b])) == TestArgMap(a, b)
    ensures ArgTable(Occurrences(TestArgDeps(a, b), [a, b])) == [("x0", IntT), ("y0", IntT), ("s0", StrT)]
  {
    TestOccurrences(a, b);
    var px, py, ps := Param("x", IntT), Param("y", IntT), Param("s", StrT);
    var occ: seq<Occurrence> := [(a, px), (a, py), (b, ps)];
    TableOfThree(occ);
    MapOfThree(occ);
    KeywordNames();
  }

  /** Iterating `b` first: `inp_type` is `s0`, `x0`, `y0`. */
  lemma TestArgumentsBA(a: Vertex, b: Vertex)
    requires TestVertices(a, b)
    ensures ArgMapOf(Occurrences(TestArgDeps(a, b), [b, a])) == TestArgMap(a, b)
    ensures ArgTable(Occurrences(TestArgDeps(a, b), [b, a])) == [("s0", StrT), ("x0", IntT), ("y0", IntT)]
  {
    TestOccurrences(a, b);
    var px, py, ps := Param("x", IntT), Param("y", IntT), Param("s", StrT);
    var occ: seq<Occurrence> := [(b, ps), (a, px), (a, py)];
    TableOfThree(occ);
    MapOfThree(occ);
    KeywordNames();
    RotateMap((b, "s"), "s0", (a, "x"), "x0", (a, "y"), "y0");
  }

  /** The keyword arguments of a vertex with two parameters, both of which have a value. */
  lemma InputsOfPair(deps: ArgDeps, argMap: ArgMap, env: Env, u: Vertex, p: Param, q: Param, f: nat, x: Value, y: Value)
    requires DepsInRange(deps)
    requires Input(deps, argMap, env, u, p.kwd, f) == Ok(Some(x)) && Input(deps, argMap, env, u, q.kwd, f) == Ok(Some(y))
    ensures Inputs(deps, argMap, env, u, [p, q], f) == Ok(map[p.kwd := x, q.kwd := y])
  {
    assert [p, q][..1] == [p] && [p][..0] == [];
    assert Inputs(deps, argMap, env, u, [p], f) == Ok(map[p.kwd := x]);
  }

  /** A function vertex called with exactly its keywords yields what its primitive returns. */
  lemma InvokeFunc(v: Vertex, kw: map<string, Value>, x: Value)
    requires v.kind.FuncKind? && kw.Keys == v.Keywords() && Apply(v.kind.op, kw) == Ok(x)
    ensures Invoke(v, kw) == Ok([x])
  {
  }

  lemma ApplyAdd()
    ensures Apply(IntAdd, map["x" := IntV(2), "y" := IntV(3)]) == Ok(IntV(5))
  {
  }

  lemma ApplyRepeat()
    ensures Apply(StrRepeat, map["s" := StrV("a"), "n" := IntV(5)]) == Ok(StrV("aaaaa"))
  {
    RepeatFive();
  }

  lemma TestDepsInRange(a: Vertex, b: Vertex)
    requires TestVertices(a, b)
    ensures DepsInRange(TestArgDeps(a, b))
  {
    TestParams(a, b);
  }

  /** Keyword `k` of `u` is unbound and the caller supplies `x` for it, under the name `arg_map` gives it. */
  predicate Given(deps: ArgDeps, argMap: ArgMap, env: Env, u: Vertex, k: string, x: Value) {
    !IsBound(deps, u, k) && (u, k) in argMap && argMap[(u, k)] in env && env[argMap[(u, k)]] == x
  }

  /** An unbound keyword receives the caller's argument. */
  lemma InputGiven(deps: ArgDeps, argMap: ArgMap, env: Env, u: Vertex, k: string, f: nat, x: Value)
    requires DepsInRange(deps) && Given(deps, argMap, env, u, k, x)
    ensures Input(deps, argMap, env, u, k, f) == Ok(Some(x))
  {
  }

  /** A keyword bound to output 0 of a producer that yields `[x]` receives `x`. */
  lemma InputFed(deps: ArgDeps, argMap: ArgMap, env: Env, u: Vertex, k: string, f: nat, p: Vertex, x: Value)
    requires DepsInRange(deps) && IsBound(deps, u, k) && deps[u][k] == Some((p, 0))
    requires Eval(deps, argMap, env, p, f) == Ok([x])
    ensures Input(deps, argMap, env, u, k, f) == Ok(Some(x))
  {
  }

  /** An `int_add` vertex given `x=2` and `y=3` by the caller yields 5, whatever the fuel beyond none. */
  lemma EvalAdd(deps: ArgDeps, argMap: ArgMap, env: Env, a: Vertex, f: nat)
    requires DepsInRange(deps) && f >= 1 && a.kind == FuncKind(IntAdd)
    requires Given(deps, argMap, env, a, "x", IntV(2)) && Given(deps, argMap, env, a, "y", IntV(3))
    ensures Eval(deps, argMap, env, a, f) == Ok([IntV(5)])
  {
    InputGiven(deps, argMap, env, a, "x", f - 1, IntV(2));
    InputGiven(deps, argMap, env, a, "y", f - 1, IntV(3));
    InputsOfPair(deps, argMap, env, a, Param("x", IntT), Param("y", IntT), f - 1, IntV(2), IntV(3));
    assert a.Keywords() == {"x", "y"};
    ApplyAdd();
    InvokeFunc(a, map["x" := IntV(2), "y" := IntV(3)], IntV(5));
  }

  /** Its `s` given as `'a'` and its `n` fed by a vertex yielding 5, a `str_repeat` vertex has both keywords. */
  lemma InputsRepeat(deps: ArgDeps, argMap: ArgMap, env: Env, a: Vertex, b: Vertex, f: nat)
    requires DepsInRange(deps) && b.kind == FuncKind(StrRepeat)
    requires Given(deps, argMap, env, b, "s", StrV("a")) && IsBound(deps, b, "n") && deps[b]["n"] == Some((a, 0))
    requires Eval(deps, argMap, env, a, f) == Ok([IntV(5)])
    ensures Inputs(deps, argMap, env, b, b.Params(), f) == Ok(map["s" := StrV("a"), "n" := IntV(5)])
  {
    InputGiven(deps, argMap, env, b, "s", f, StrV("a"));
    InputFed(deps, argMap, env, b, "n", f, a, IntV(5));
    InputsOfPair(deps, argMap, env, b, Param("s", StrT), Param("n", IntT), f, StrV("a"), IntV(5));
  }

  /** A `str_repeat` vertex whose keywords are `s='a'` and `n=5` yields `'aaaaa'`. */
  lemma EvalRepeat(deps: ArgDeps, argMap: ArgMap, env: Env, b: Vertex, f: nat)
    requires DepsInRange(deps) && f >= 1 && b.kind == FuncKind(StrRepeat)
    requires Inputs(deps, argMap, env, b, b.Params(), f - 1) == Ok(map["s" := StrV("a"), "n" := IntV(5)])
    ensures Eval(deps, argMap, env, b, f) == Ok([StrV("aaaaa")])
  {
    assert b.Keywords() == {"s", "n"};
    ApplyRepeat();
    InvokeFunc(b, map["s" := StrV("a"), "n" := IntV(5)], StrV("aaaaa"));
  }

  lemma RepeatFive()
    ensures Primitives.StrRepeat("a", 5) == "aaaaa"
  {
    assert Primitives.StrRepeat("a", 2) == "aa";
    assert Primitives.StrRepeat("a", 4) == "aaaa";
  }

  /** The caller supplies `x`, `y` of `a` and `s` of `b`; `n` of `b` reads output 0 of `a`. */
  lemma TestGiven(a: Vertex, b: Vertex)
    requires TestVertices(a, b)
    ensures Given(TestArgDeps(a, b), TestArgMap(a, b), Kwargs, a, "x", IntV(2))
    ensures Given(TestArgDeps(a, b), TestArgMap(a, b), Kwargs, a, "y", IntV(3))
    ensures Given(TestArgDeps(a, b), TestArgMap(a, b), Kwargs, b, "s", StrV("a"))
    ensures IsBound(TestArgDeps(a, b), b, "n") && TestArgDeps(a, b)[b]["n"] == Some((a, 0))
  {
  }

  /** `g` is the test graph over the vertices `a` (`int_add`) and `b` (`repeat`). */
  ghost predicate TestGraph(g: FuncGraph, a: Vertex, b: Vertex)
    reads g
  {
    TestVertices(a, b) && g.vertices == {a, b} && g.adjacency == TestAdjacency(a, b) && g.argdeps == TestArgDeps(a, b)
  }

  /**
   * The test script: builds the graph, asks for its input and output types
   * and calls it with `s0='a', x0=2, y0=3`, under both iteration orders of
   * its two vertices.
   */
  method IntAddFeedsRepeat() returns (inpType: seq<(string, Type)>, outType: Result<seq<Type>, Error>,
                                      r: Result<seq<Value>, Error>, r': Result<seq<Value>, Error>)
    ensures inpType == [("x0", IntT), ("y0", IntT), ("s0", StrT)]
    ensures outType == Ok([TupleT([StrT])])
    ensures r == Ok([StrV("aaaaa")]) && r' == r
  {
    var g, a, b := BuildTest();
    inpType := TestInpType(g, a, b);
    outType := TestOutType(g, a, b);
    r := RunTest(g, a, b, [a, b]);
    assert IsEnumeration([b, a], {a, b});
    r' := RunTest(g, a, b, [b, a]);
  }

  /** `compositeFn` with the vertices `int_add` and `repeat`, the sum fed to `n` of `repeat`. */
  method BuildTest() returns (g: FuncGraph, a: Vertex, b: Vertex)
    ensures g.Valid() && g.TablesAgree() && TestGraph(g, a, b)
  {
    g, a, b := AddTestVertices();
    TestBuilt(a, b);
    g.Feed(a, 0, b, "n");
  }

  /** `compositeFn` after `add(int_add)` and `add(repeat)`, before any edge. */
  method AddTestVertices() returns (g: FuncGraph, a: Vertex, b: Vertex)
    ensures fresh(g) && g.Valid() && g.TablesAgree() && TestVertices(a, b) && g.vertices == {a, b}
    ensures g.adjacency == AddedAdjacency(AddedAdjacency(map[], a), b)
    ensures g.argdeps == AddedArgDeps(AddedArgDeps(map[], a), b)
  {
    g := new FuncGraph("compositeFn");
    a := AddFunc(g, "int_add", IntAdd);
    b := AddFunc(g, "repeat", StrRepeat);
  }

  /** `g.add(FuncVertex(name, op))` with a new vertex: the graph gains its rows and stays valid and in agreement. */
  method AddFunc(g: FuncGraph, name: string, op: Prim) returns (v: Vertex)
    requires g.Valid() && g.TablesAgree()
    modifies g
    ensures fresh(v) && v.name == name && v.kind == FuncKind(op)
    ensures g.vertices == old(g.vertices) + {v}
    ensures g.adjacency == AddedAdjacency(old(g.adjacency), v) && g.argdeps == AddedArgDeps(old(g.argdeps), v)
    ensures g.Valid() && g.TablesAgree()
  {
    v := new Vertex.Func(name, op);
    assert v !in g.vertices;
    v := g.Add(v);
  }

  /** What `feed(a, 0, b, 'n')` needs of the freshly added vertices, and the tables it leaves. */
  lemma TestBuilt(a: Vertex, b: Vertex)
    requires TestVertices(a, b)
    ensures 0 < a.Arity() && "n" in b.Keywords()
    ensures var adj := AddedAdjacency(AddedAdjacency(map[], a), b);
      a in adj && |adj[a]| == 1 && FedAdjacency(adj, a, 0, b, "n") == TestAdjacency(a, b)
    ensures var deps := AddedArgDeps(AddedArgDeps(map[], a), b);
      b in deps && !IsBound(deps, b, "n") && FedArgDeps(deps, a, 0, b, "n") == TestArgDeps(a, b)
  {
    TestParams(a, b);
    TestAdjacencyBuilt(a, b);
    TestArgDepsBuilt(a, b);
  }

  /** `get_inp_type()` of the test graph: `x0`, `y0` of `int_add`, then `s0` of `repeat`. */
  method TestInpType(g: FuncGraph, a: Vertex, b: Vertex) returns (inpType: seq<(string, Type)>)
    requires g.Valid() && TestVertices(a, b) && g.vertices == {a, b} && g.argdeps == TestArgDeps(a, b)
    ensures inpType == [("x0", IntT), ("y0", IntT), ("s0", StrT)]
  {
    var argMap;
    inpType, argMap := g.GetArguments([a, b]);
    TestArgumentsAB(a, b);
  }

  /** `get_out_type()` of the test graph: the one open slot of `repeat`, declared `(str,)`. */
  method TestOutType(g: FuncGraph, a: Vertex, b: Vertex) returns (outType: Result<seq<Type>, Error>)
    requires g.Valid() && TestGraph(g, a, b)
    ensures outType == Ok([TupleT([StrT])])
  {
    TestAcyclic(a, b);
    TestOpen(a, b);
    outType := g.GetOutType([a, b]);
    ghost var s :| IsOutputVertex(g.vertices, g.adjacency, s) && (outType.Ok? <==> s.OutType().Tuple?)
      && (outType.Ok? ==> outType.value == Select(s.OutType().ts, OpenSlots(g.adjacency[s])));
    assert s == b;
    assert b.OutType() == Tuple([TupleT([StrT])]);
    assert g.adjacency[b] == [None] && OpenSlots([None]) == [0];
    SelectOne(TupleT([StrT]));
  }

  /** `g(s0='a', x0=2, y0=3)`, with the vertices iterated in the order `iter`. */
  method RunTest(g: FuncGraph, a: Vertex, b: Vertex, iter: seq<Vertex>) returns (r: Result<seq<Value>, Error>)
    requires g.Valid() && g.TablesAgree() && TestGraph(g, a, b) && IsEnumeration(iter, {a, b})
    ensures r == Ok([StrV("aaaaa")])
  {
    r := g.Call(iter, [], Kwargs);
    TestCall(g, a, b, iter, r);
  }

  /** What `__call__` promises, specialised to the test graph, pins its result down. */
  lemma TestCall(g: FuncGraph, a: Vertex, b: Vertex, iter: seq<Vertex>, r: Result<seq<Value>, Error>)
    requires g.Valid() && g.TablesAgree() && TestGraph(g, a, b) && IsEnumeration(iter, {a, b})
    requires r == Err(CyclicGraph) <==> HasCycle(g.argdeps)
    requires r == Err(NoOutputVertex) <==> !HasCycle(g.argdeps) && NoOpenVertex(g.vertices, g.adjacency)
    requires r == Err(IncompleteGraph) <==> !HasCycle(g.argdeps) && TwoOpenVertices(g.vertices, g.adjacency)
    requires g.Dfs(iter).Done? ==> IsTopoOrder(g.vertices, g.argdeps, g.Dfs(iter).topo)
    requires g.TablesAgree() && !(r.Err? && GraphError(r.error)) ==>
               g.Dfs(iter).Done? && g.RunsAlong(iter, [], Kwargs, g.Dfs(iter).topo, r)
    ensures r == Ok([StrV("aaaaa")])
  {
    TestAcyclic(a, b);
    TestOpen(a, b);
    assert !(r.Err? && GraphError(r.error));
    TestRunsAlong(g, a, b, iter, g.Dfs(iter).topo, r);
  }

  /** Run along a topological order of the test graph, the call returns `('aaaaa',)`. */
  lemma TestRunsAlong(g: FuncGraph, a: Vertex, b: Vertex, iter: seq<Vertex>, order: seq<Vertex>,
                      r: Result<seq<Value>, Error>)
    requires g.Valid() && TestGraph(g, a, b) && IsEnumeration(iter, {a, b})
    requires IsTopoOrder(g.vertices, g.argdeps, order) && g.RunsAlong(iter, [], Kwargs, order, r)
    ensures r == Ok([StrV("aaaaa")])
  {
    var s :| IsOutputVertex(g.vertices, g.adjacency, s) && s in order
             && Reference(g.argdeps, g.CallArgMap(iter), g.CallEnv(iter, [], Kwargs), order,
                          IndexIn(order, s), OpenSlots(g.adjacency[s]), r);
    TestDepsInRange(a, b);
    TestCallArguments(a, b, iter);
    TestResult(a, b, g.vertices, g.adjacency, g.argdeps, g.CallArgMap(iter), g.CallEnv(iter, [], Kwargs), order, s, r);
  }

  /** Neither order of the test graph renames its inputs, and no positional argument rebinds them. */
  lemma TestCallArguments(a: Vertex, b: Vertex, iter: seq<Vertex>)
    requires TestVertices(a, b) && IsEnumeration(iter, {a, b})
    ensures ArgMapOf(Occurrences(TestArgDeps(a, b), iter)) == TestArgMap(a, b)
    ensures Positional(Kwargs, FuncPrimitives.DictKeys(ArgTable(Occurrences(TestArgDeps(a, b), iter))), []) == Kwargs
  {
    TwoOrders(a, b, iter);
    TestArgumentsAB(a, b);
    TestArgumentsBA(a, b);
  }

  /** `b` is the output vertex: the only one with an open slot. */
  lemma TestOpen(a: Vertex, b: Vertex)
    requires TestVertices(a, b)
    ensures IsOutputVertex({a, b}, TestAdjacency(a, b), b)
    ensures !NoOpenVertex({a, b}, TestAdjacency(a, b)) && !TwoOpenVertices({a, b}, TestAdjacency(a, b))
    ensures forall s :: IsOutputVertex({a, b}, TestAdjacency(a, b), s) ==> s == b
  {
    assert !IsOpen(TestAdjacency(a, b), a);
    assert IsOpen(TestAdjacency(a, b), b);
  }

  /** `[a, b]` orders the test graph, so it has no cycle. */
  lemma TestAcyclic(a: Vertex, b: Vertex)
    requires TestVertices(a, b)
    ensures !HasCycle(TestArgDeps(a, b))
  {
    TestOrder(a, b, [a, b]);
    assert TestArgDeps(a, b).Keys == {a, b};
    TopoOrderAcyclic({a, b}, TestArgDeps(a, b), [a, b]);
  }

  /** Run along its only topological order, the test graph returns the output of `b`. */
  lemma TestResult(a: Vertex, b: Vertex, vs: set<Vertex>, adj: Adjacency, deps: ArgDeps, argMap: ArgMap, env: Env,
                   order: seq<Vertex>, s: Vertex, r: Result<seq<Value>, Error>)
    requires TestVertices(a, b) && vs == {a, b} && adj == TestAdjacency(a, b) && deps == TestArgDeps(a, b)
    requires argMap == TestArgMap(a, b) && env == Kwargs
    requires WellFormed(vs, adj, deps) && DepsInRange(deps) && IsTopoOrder(vs, deps, order)
    requires IsOutputVertex(vs, adj, s) && s in order
    requires Reference(deps, argMap, env, order, IndexIn(order, s), OpenSlots(adj[s]), r)
    ensures r == Ok([StrV("aaaaa")])
  {
    TestOrder(a, b, order);
    TestOpen(a, b);
    assert s == b && IndexIn(order, s) == 1;
    TestGiven(a, b);
    EvalAdd(deps, argMap, env, a, 1);
    EvalAdd(deps, argMap, env, a, 2);
    InputsRepeat(deps, argMap, env, a, b, 1);
    EvalRepeat(deps, argMap, env, b, 2);
    assert order == [a, b] && adj[b] == [None] && OpenSlots([None]) == [0];
    ReferenceOfPair(deps, argMap, env, a, b, [0], r, [StrV("aaaaa")]);
    SelectOne(StrV("aaaaa"));
  }

  lemma SelectOne<T>(x: T)
    ensures Select([x], [0]) == [x]
  {
    assert Select([x], [0])[0] == x;
  }

  /** Along a two-vertex order whose vertices both succeed, the result is the selected outputs of the second. */
  lemma ReferenceOfPair(deps: ArgDeps, argMap: ArgMap, env: Env, u: Vertex, w: Vertex, outIdx: seq<nat>,
                        r: Result<seq<Value>, Error>, ys: seq<Value>)
    requires DepsInRange(deps) && forall j :: 0 <= j < |outIdx| ==> outIdx[j] < w.Arity()
    requires Reference(deps, argMap, env, [u, w], 1, outIdx, r)
    requires Eval(deps, argMap, env, u, 2).Ok? && Eval(deps, argMap, env, w, 2) == Ok(ys)
    ensures r == Ok(Select(ys, outIdx))
  {
  }

  /** `add(a)`, `add(b)` and `feed(a, 0, b, 'n')` from an empty `adjacency`. */
  lemma TestAdjacencyBuilt(a: Vertex, b: Vertex)
    requires TestVertices(a, b)
    ensures var adj := AddedAdjacency(AddedAdjacency(map[], a), b);
      a in adj && |adj[a]| == 1 && FedAdjacency(adj, a, 0, b, "n") == TestAdjacency(a, b)
  {
    TestParams(a, b);
    var open: seq<Slot> := seq(1, _ => None);
    assert open[0] == None;
    assert open == [None];
    var adj := AddedAdjacency(AddedAdjacency(map[], a), b);
    assert adj == map[a := [None], b := [None]];
    var fed: Slot := Some([(b, "n")]);
    assert SlotList(adj[a][0]) + [(b, "n")] == [(b, "n")];
    assert adj[a][0 := fed] == [fed];
  }

  /** `add(a)`, `add(b)` and `feed(a, 0, b, 'n')` from an empty `argdeps`. */
  lemma TestArgDepsBuilt(a: Vertex, b: Vertex)
    requires TestVertices(a, b)
    ensures var deps := AddedArgDeps(AddedArgDeps(map[], a), b);
      b in deps && !IsBound(deps, b, "n") && FedArgDeps(deps, a, 0, b, "n") == TestArgDeps(a, b)
  {
    TestParams(a, b);
    var rowA: map<string, Option<Dep>> := map k | k in a.Keywords() :: None;
    var rowB: map<string, Option<Dep>> := map k | k in b.Keywords() :: None;
    assert rowA == map["x" := None, "y" := None];
    assert rowB == map["s" := None, "n" := None];
    var deps := AddedArgDeps(AddedArgDeps(map[], a), b);
    assert deps == map[a := rowA, b := rowB];
    assert rowB["n" := Some((a, 0))] == map["s" := None, "n" := Some((a, 0))];
  }
}

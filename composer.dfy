/**
 * `FuncGraph`: a mutable graph of vertices whose outputs feed the keyword
 * inputs of other vertices, with the operations that build it, order it,
 * name its inputs, describe its outputs, run it and print it as a
 * straight-line program. The iteration order of the Python set of
 * vertices is the parameter `iter`, any sequence listing each vertex once.
 */
module Composer {
  import opened Wrappers
  import opened Vertices
  import opened GraphSpec
  import opened Semantics
  import opened Arguments
  import opened Text
  import opened Execution
  import opened DepthFirst
  import Render
  import FuncPrimitives

  /** `counters` holds, for each keyword seen so far, its count minus one. */
  ghost predicate Counters(counters: map<string, nat>, occ: seq<Occurrence>) {
    forall k :: (k in counters <==> CountKwd(occ, k) > 0) && (k in counters ==> counters[k] + 1 == CountKwd(occ, k))
  }

  /** Keyword `k` of a row is unbound, or bound to a producer in `done`. */
  predicate Handled(row: map<string, Option<Dep>>, k: string, done: set<Vertex>) {
    k in row && (row[k].Some? ==> row[k].value.0 in done)
  }

  class FuncGraph {
    const name: string
    var vertices: set<Vertex>
    var adjacency: Adjacency
    var argdeps: ArgDeps

    /** The tables describe exactly the graph's vertices. */
    predicate Valid()
      reads this
    {
      WellFormed(vertices, adjacency, argdeps)
    }

    /** `adjacency` and `argdeps` describe the same edges. */
    predicate TablesAgree()
      reads this
    {
      Coherent(vertices, adjacency, argdeps)
    }

    /** `FuncGraph(name)`: no vertices, no edges. */
    constructor(name: string)
      ensures this.name == name && vertices == {} && adjacency == map[] && argdeps == map[]
      ensures Valid() && TablesAgree()
    {
      this.name := name;
      vertices := {};
      adjacency := map[];
      argdeps := map[];
    }

    /**
     * `add(new)`: every output slot of `v` open, every keyword unbound. Adding
     * a vertex already present resets its rows.
     */
    method Add(v: Vertex) returns (r: Vertex)
      requires Valid()
      modifies this
      ensures r == v && vertices == old(vertices) + {v}
      ensures adjacency == AddedAdjacency(old(adjacency), v) && argdeps == AddedArgDeps(old(argdeps), v)
      ensures Valid()
      ensures old(TablesAgree()) && v !in old(vertices) ==> TablesAgree()
    {
      vertices := vertices + {v};
      adjacency, argdeps := AddRows(adjacency, argdeps, v);
      AddKeeps(old(vertices), old(adjacency), old(argdeps), adjacency, argdeps, v);
      r := v;
    }

    /**
     * `feed(src, idx, dst, kwd)`: output `idx` of `src` now also feeds `kwd`
     * of `dst`, and `kwd` of `dst` reads from it.
     */
    method Feed(src: Vertex, idx: nat, dst: Vertex, kwd: string)
      requires Valid()
      requires src in vertices && dst in vertices && idx < src.Arity() && kwd in dst.Keywords()
      modifies this
      ensures vertices == old(vertices)
      ensures adjacency == FedAdjacency(old(adjacency), src, idx, dst, kwd)
      ensures argdeps == FedArgDeps(old(argdeps), src, idx, dst, kwd)
      ensures Valid()
      ensures old(TablesAgree()) && !old(IsBound(argdeps, dst, kwd)) ==> TablesAgree()
    {
      adjacency, argdeps := FeedRows(adjacency, argdeps, src, idx, dst, kwd);
      FeedKeeps(vertices, old(adjacency), old(argdeps), adjacency, argdeps, src, idx, dst, kwd);
    }

    /** The vertices seen so far are the finished ones and those still on the stack. */
    predicate Frontier(visited: set<Vertex>, stack: seq<Vertex>, topo: seq<Vertex>)
      reads this
    {
      && visited <= vertices
      && Distinct(topo) && Distinct(stack)
      && visited == Elems(topo) + Elems(stack)
      && Elems(topo) !! Elems(stack)
    }

    /**
     * The state of the depth-first search: `topo` holds the finished vertices,
     * each after its producers; `stack` the vertices still being visited
     * (`recursing`), each depending on the next.
     */
    ghost predicate DfsState(visited: set<Vertex>, stack: seq<Vertex>, topo: seq<Vertex>)
      reads this
    {
      Frontier(visited, stack, topo) && ProducersFirst(argdeps, topo) && IsDepChain(argdeps, stack)
    }

    /**
     * The nested `dfs` of `_get_topo_order`: visits the producers of `v` in
     * keyword order, then appends `v`; reports a cycle on reaching a vertex
     * that is still being visited.
     */
    method Visit(v: Vertex, visited: set<Vertex>, recursing: set<Vertex>, topo: seq<Vertex>, ghost stack: seq<Vertex>)
      returns (cyclic: bool, visited': set<Vertex>, topo': seq<Vertex>)
      requires Valid() && Closed(vertices, argdeps)
      requires v in vertices && v !in visited
      requires DfsState(visited, stack, topo) && recursing == Elems(stack)
      requires stack != [] ==> DependsOn(argdeps, stack[|stack| - 1], v)
      ensures cyclic <==> VisitFrom(vertices, argdeps, v, visited, recursing, topo).Cyclic?
      ensures !cyclic ==> VisitFrom(vertices, argdeps, v, visited, recursing, topo) == Done(visited', topo')
      ensures cyclic ==> HasCycle(argdeps)
      ensures !cyclic ==> DfsState(visited', stack, topo') && visited + {v} <= visited' && v in topo'
      ensures !cyclic ==> topo <= topo'
      decreases vertices - visited, 0
    {
      var vis := visited + {v};
      ghost var seen := vis;
      var rec := recursing + {v};
      ghost var st := stack + [v];
      var t := topo;
      var ps := v.Params();
      StartVisit(v, visited, stack, topo);
      ghost var row := argdeps[v];
      var j := 0;
      while j < |ps|
        invariant j <= |ps| && vis <= vertices
        invariant KeysFrom(vertices, argdeps, v, ps, j, vis, rec, t) == VisitFrom(vertices, argdeps, v, visited, recursing, topo)
        invariant DfsState(vis, st, t) && rec == Elems(st)
        invariant seen <= vis
        invariant topo <= t
        invariant forall m :: 0 <= m < j ==> Handled(row, ps[m].kwd, vis - rec)
        decreases |ps| - j
      {
        ghost var vis0 := vis;
        assert vertices - vis < vertices - visited by {
          assert v in vertices - visited && v !in vertices - vis;
        }
        var c;
        c, vis, t := VisitKey(v, ps, j, vis, rec, t, st);
        if c {
          return true, vis, t;
        }
        HandledStep(row, ps, j, vis0, vis, rec);
        j := j + 1;
      }
      FinishVisit(v, ps, row, vis, rec, stack, t);
      t := t + [v];
      return false, vis, t;
    }

    /**
     * One pass of the loop of `dfs(v)`: the `j`-th keyword of `v` is skipped
     * when unbound, is a back edge when its producer is still being visited,
     * and otherwise has its producer visited unless that was seen already.
     */
    method VisitKey(v: Vertex, ps: seq<Param>, j: nat, vis: set<Vertex>, rec: set<Vertex>, t: seq<Vertex>,
                    ghost st: seq<Vertex>)
      returns (cyclic: bool, vis': set<Vertex>, t': seq<Vertex>)
      requires Valid() && Closed(vertices, argdeps)
      requires v in vertices && ps == v.Params() && j < |ps|
      requires DfsState(vis, st, t) && rec == Elems(st) && st != [] && st[|st| - 1] == v
      ensures cyclic ==> KeysFrom(vertices, argdeps, v, ps, j, vis, rec, t) == Cyclic && HasCycle(argdeps)
      ensures !cyclic ==> DfsState(vis', st, t') && vis <= vis' <= vertices && t <= t'
      ensures !cyclic ==> Handled(argdeps[v], ps[j].kwd, vis' - rec)
      ensures !cyclic ==>
        KeysFrom(vertices, argdeps, v, ps, j, vis, rec, t) == KeysFrom(vertices, argdeps, v, ps, j + 1, vis', rec, t')
      decreases vertices - vis, 1
    {
      var kwd := ps[j].kwd;
      assert RowsOk(vertices, v, adjacency[v], argdeps[v]);
      assert kwd in v.Keywords();
      var into := argdeps[v][kwd];
      if into.None? {
        KeysSkip(vertices, argdeps, v, ps, j, vis, rec, t);
        return false, vis, t;
      }
      var dst := into.value.0;
      assert DependsOn(argdeps, v, dst) by {
        assert IsBound(argdeps, v, kwd);
      }
      if dst in rec {
        KeysBackEdge(vertices, argdeps, v, ps, j, vis, rec, t);
        CycleFromBackEdge(argdeps, st, dst);
        return true, vis, t;
      }
      if dst in vis {
        KeysSkip(vertices, argdeps, v, ps, j, vis, rec, t);
        return false, vis, t;
      }
      KeysDescend(vertices, argdeps, v, ps, j, vis, rec, t);
      cyclic, vis', t' := Visit(dst, vis, rec, t, st);
    }

    /** Keywords handled before a recursive visit stay handled after it. */
    static lemma HandledStep(row: map<string, Option<Dep>>, ps: seq<Param>, j: nat, vis0: set<Vertex>,
                             vis: set<Vertex>, rec: set<Vertex>)
      requires j < |ps| && vis0 <= vis
      requires forall m :: 0 <= m < j ==> Handled(row, ps[m].kwd, vis0 - rec)
      requires Handled(row, ps[j].kwd, vis - rec)
      ensures forall m :: 0 <= m < j + 1 ==> Handled(row, ps[m].kwd, vis - rec)
    {
      forall m | 0 <= m < j + 1
        ensures Handled(row, ps[m].kwd, vis - rec)
      {
        if m < j {
          assert Handled(row, ps[m].kwd, vis0 - rec);
        }
      }
    }

    /** Pushing `v` on the stack keeps the search state. */
    lemma StartVisit(v: Vertex, visited: set<Vertex>, stack: seq<Vertex>, topo: seq<Vertex>)
      requires v in vertices && v !in visited
      requires DfsState(visited, stack, topo)
      requires stack != [] ==> DependsOn(argdeps, stack[|stack| - 1], v)
      ensures DfsState(visited + {v}, stack + [v], topo)
    {
      DepChainExtend(argdeps, stack, v);
      assert Elems(stack + [v]) == Elems(stack) + {v};
    }

    /** Once every producer of `v` is finished, `v` can be finished. */
    lemma FinishVisit(v: Vertex, ps: seq<Param>, row: map<string, Option<Dep>>, vis: set<Vertex>,
                      rec: set<Vertex>, stack: seq<Vertex>, t: seq<Vertex>)
      requires Valid() && v in vertices && ps == v.Params() && row == argdeps[v]
      requires DfsState(vis, stack + [v], t) && rec == Elems(stack + [v])
      requires forall m :: 0 <= m < |ps| ==> Handled(row, ps[m].kwd, vis - rec)
      ensures DfsState(vis, stack, t + [v])
    {
      FinishProducers(v, ps, row, vis, rec, stack, t);
      ProducersFirstAppend(argdeps, t, v);
      DepChainShrink(argdeps, stack, v);
      assert Elems(stack + [v]) == Elems(stack) + {v};
      assert Elems(t + [v]) == Elems(t) + {v};
      assert v !in Elems(t);
      forall i | 0 <= i < |stack|
        ensures stack[i] != v
      {
        assert (stack + [v])[i] == stack[i] && (stack + [v])[|stack|] == v;
      }
      assert forall i :: 0 <= i < |stack| ==> stack[i] == (stack + [v])[i];
      assert forall i :: 0 <= i < |t| ==> t[i] == (t + [v])[i];
    }

    lemma FinishProducers(v: Vertex, ps: seq<Param>, row: map<string, Option<Dep>>, vis: set<Vertex>,
                          rec: set<Vertex>, stack: seq<Vertex>, t: seq<Vertex>)
      requires Valid() && v in vertices && ps == v.Params() && row == argdeps[v]
      requires Frontier(vis, stack + [v], t) && rec == Elems(stack + [v])
      requires forall m :: 0 <= m < |ps| ==> Handled(row, ps[m].kwd, vis - rec)
      ensures ProducersIn(argdeps, v, Elems(t))
    {
      assert RowsOk(vertices, v, adjacency[v], argdeps[v]);
      forall p | DependsOn(argdeps, v, p)
        ensures p in Elems(t)
      {
        var k :| IsBound(argdeps, v, k) && argdeps[v][k].value.0 == p;
        var m :| 0 <= m < |ps| && ps[m].kwd == k;
        assert Handled(row, ps[m].kwd, vis - rec);
      }
    }

    /** The second loop of `_get_topo_order`: the one vertex with an uncaught output. */
    method FindOutput(iter: seq<Vertex>) returns (r: Result<Vertex, Error>)
      requires adjacency.Keys == vertices && IsEnumeration(iter, vertices)
      ensures r.Ok? ==> IsOutputVertex(vertices, adjacency, r.value)
      ensures r == Err(NoOutputVertex) <==> NoOpenVertex(vertices, adjacency)
      ensures r == Err(IncompleteGraph) <==> TwoOpenVertices(vertices, adjacency)
      ensures r.Err? ==> r.error == NoOutputVertex || r.error == IncompleteGraph
    {
      var sink: Option<Vertex> := None;
      for i := 0 to |iter|
        invariant sink.None? ==> forall j :: 0 <= j < i ==> !IsOpen(adjacency, iter[j])
        invariant sink.Some? ==> sink.value in vertices && IsOpen(adjacency, sink.value) && sink.value in iter[..i]
        invariant sink.Some? ==> forall j :: 0 <= j < i && IsOpen(adjacency, iter[j]) ==> iter[j] == sink.value
      {
        var v := iter[i];
        assert v in Elems(iter);
        if None in adjacency[v] {
          if sink.None? {
            sink := Some(v);
          } else {
            ghost var j :| 0 <= j < i && iter[j] == sink.value;
            OpenPair(sink.value, v);
            return Err(IncompleteGraph);
          }
        }
      }
      if sink.None? {
        forall u | u in vertices
          ensures !IsOpen(adjacency, u)
        {
          assert u in Elems(iter);
        }
        OpenTrichotomy(vertices, adjacency);
        return Err(NoOutputVertex);
      }
      forall u | u in vertices && IsOpen(adjacency, u)
        ensures u == sink.value
      {
        assert u in Elems(iter);
      }
      OpenTrichotomy(vertices, adjacency);
      return Ok(sink.value);
    }

    lemma OpenPair(u: Vertex, w: Vertex)
      requires u in vertices && w in vertices && u != w && IsOpen(adjacency, u) && IsOpen(adjacency, w)
      ensures TwoOpenVertices(vertices, adjacency) && !NoOpenVertex(vertices, adjacency)
    {
    }

    /** The outcome of the depth-first search of `_get_topo_order` for the iteration order `iter`. */
    ghost function Dfs(iter: seq<Vertex>): Outcome
      reads this
      requires Valid() && IsEnumeration(iter, vertices)
    {
      WellFormedClosed(vertices, adjacency, argdeps);
      DfsOrder(vertices, argdeps, iter)
    }

    /**
     * The first loop of `_get_topo_order`: a depth-first search from every
     * vertex not yet seen, in the order `iter`. It computes the search of
     * `DfsOrder`; a back edge means a cycle, and otherwise every vertex is
     * finished after its producers.
     */
    method SearchAll(iter: seq<Vertex>) returns (cyclic: bool, topo: seq<Vertex>)
      requires Valid() && IsEnumeration(iter, vertices)
      ensures cyclic <==> Dfs(iter).Cyclic?
      ensures !cyclic ==> Dfs(iter) == Done(vertices, topo)
      ensures cyclic ==> HasCycle(argdeps)
      ensures !cyclic ==> IsTopoOrder(vertices, argdeps, topo)
    {
      var visited: set<Vertex> := {};
      var recursing: set<Vertex> := {};
      topo := [];
      WellFormedClosed(vertices, adjacency, argdeps);
      assert iter[0..] == iter;
      for i := 0 to |iter|
        invariant DfsState(visited, [], topo)
        invariant Elems(iter[..i]) <= visited
        invariant SweepFrom(vertices, argdeps, iter, i, visited, topo) == Dfs(iter)
      {
        SweepNext(vertices, argdeps, iter, i, visited, topo);
        ElemsPrefixStep(iter, i);
        if iter[i] !in visited {
          var c;
          c, visited, topo := Visit(iter[i], visited, recursing, topo, []);
          if c {
            return true, topo;
          }
        }
      }
      SearchDone(iter, visited, topo);
      return false, topo;
    }

    /** After the last vertex of `iter` the search has finished every vertex, each after its producers. */
    lemma SearchDone(iter: seq<Vertex>, visited: set<Vertex>, topo: seq<Vertex>)
      requires Valid() && IsEnumeration(iter, vertices)
      requires DfsState(visited, [], topo) && Elems(iter[..|iter|]) <= visited
      requires SweepFrom(vertices, argdeps, iter, |iter|, visited, topo) == Dfs(iter)
      ensures Dfs(iter) == Done(vertices, topo)
      ensures IsTopoOrder(vertices, argdeps, topo)
    {
      assert iter[..|iter|] == iter;
      assert Frontier(visited, [], topo) && ProducersFirst(argdeps, topo);
      assert Elems<Vertex>([]) == {};
      assert visited == vertices;
    }

    /**
     * `_get_topo_order`: the depth-first search, then the search for the
     * output vertex. Whatever the order, the search reports a cycle exactly
     * when the graph has one; otherwise its result is a topological order of
     * all vertices, the one in which the search finishes them.
     */
    method TopoOrder(iter: seq<Vertex>) returns (r: Result<(seq<Vertex>, Vertex), Error>)
      requires Valid() && IsEnumeration(iter, vertices)
      ensures r == Err(CyclicGraph) <==> HasCycle(argdeps)
      ensures r == Err(CyclicGraph) <==> Dfs(iter).Cyclic?
      ensures Dfs(iter).Done? ==> IsTopoOrder(vertices, argdeps, Dfs(iter).topo)
      ensures r.Ok? ==> Dfs(iter).Done? && r.value.0 == Dfs(iter).topo
      ensures r.Ok? ==> IsTopoOrder(vertices, argdeps, r.value.0) && IsOutputVertex(vertices, adjacency, r.value.1)
      ensures r == Err(NoOutputVertex) <==> !HasCycle(argdeps) && NoOpenVertex(vertices, adjacency)
      ensures r == Err(IncompleteGraph) <==> !HasCycle(argdeps) && TwoOpenVertices(vertices, adjacency)
      ensures r.Err? ==> r.error == CyclicGraph || r.error == NoOutputVertex || r.error == IncompleteGraph
    {
      var cyclic, topo := SearchAll(iter);
      if cyclic {
        return Err(CyclicGraph);
      }
      TopoOrderAcyclic(vertices, argdeps, topo);
      var s := FindOutput(iter);
      if s.Err? {
        return Err(s.error);
      }
      return Ok((topo, s.value));
    }

    /** `_get_out_indices(sink)`: the open slots of `sink`, ascending. */
    method OutIndices(sink: Vertex) returns (out: seq<nat>)
      requires sink in adjacency
      ensures out == OpenSlots(adjacency[sink])
    {
      var slots := adjacency[sink];
      out := [];
      for e := 0 to |slots|
        invariant out == OpenSlots(slots[..e])
      {
        OpenSlotsStep(slots, e);
        if slots[e].None? {
          out := out + [e];
        }
      }
      assert slots[..|slots|] == slots;
    }

    /**
     * `get_out_type()`: the declared types of the open slots of the output
     * vertex; a constant vertex declares a bare type, which cannot be indexed.
     */
    method GetOutType(iter: seq<Vertex>) returns (r: Result<seq<Type>, Error>)
      requires Valid() && IsEnumeration(iter, vertices)
      ensures r == Err(CyclicGraph) <==> HasCycle(argdeps)
      ensures r == Err(NoOutputVertex) <==> !HasCycle(argdeps) && NoOpenVertex(vertices, adjacency)
      ensures r == Err(IncompleteGraph) <==> !HasCycle(argdeps) && TwoOpenVertices(vertices, adjacency)
      ensures r.Ok? || r == Err(NotSubscriptable) ==>
        exists s :: IsOutputVertex(vertices, adjacency, s) && (r.Ok? <==> s.OutType().Tuple?)
          && (r.Ok? ==> r.value == Select(s.OutType().ts, OpenSlots(adjacency[s])))
      ensures r.Err? ==> r.error in {CyclicGraph, NoOutputVertex, IncompleteGraph, NotSubscriptable}
    {
      var t := TopoOrder(iter);
      if t.Err? {
        return Err(t.error);
      }
      var sink := t.value.1;
      var out := OutIndices(sink);
      var ot := sink.OutType();
      if ot.Bare? {
        return Err(NotSubscriptable);
      }
      assert RowsOk(vertices, sink, adjacency[sink], argdeps[sink]);
      r := Ok(Select(ot.ts, out));
    }

    /**
     * The main loop of `__call__`: runs the vertices of `order` one by one,
     * feeding each the values delivered by earlier ones and the caller's
     * arguments, until it reaches the output vertex `sink`, and returns the
     * outputs of its open slots. In a coherent graph this is the reference
     * meaning: the run succeeds exactly when every vertex up to the sink
     * evaluates, the result is the sink's outputs at `outIdx`, and an error
     * is that of the first vertex in `order` that fails.
     */
    method Execute(order: seq<Vertex>, sink: Vertex, argMap: ArgMap, env: Env, outIdx: seq<nat>)
      returns (r: Result<seq<Value>, Error>)
      requires Valid() && IsTopoOrder(vertices, argdeps, order) && IsOutputVertex(vertices, adjacency, sink)
      requires outIdx == OpenSlots(adjacency[sink])
      ensures r.Ok? ==> |r.value| == |outIdx|
      ensures r.Err? ==> r.error.MissingArgument? || CallError(r.error)
      ensures RowsCoherent(vertices, adjacency, argdeps) ==>
        sink in order && Reference(argdeps, argMap, env, order, IndexIn(order, sink), outIdx, r)
    {
      WellFormedDepsInRange(vertices, adjacency, argdeps);
      assert sink in Elems(order);
      forall u | u in vertices
        ensures u in adjacency && |adjacency[u]| == u.Arity() && (u != sink ==> !IsOpen(adjacency, u))
      {
        assert RowsOk(vertices, u, adjacency[u], argdeps[u]);
      }
      assert RowsOk(vertices, sink, adjacency[sink], argdeps[sink]);
      r := RunOrder(order, sink, adjacency, argMap, env, outIdx, vertices, argdeps, IndexIn(order, sink));
    }

    /** `arg_map` as `_get_arguments()` builds it for the iteration order `iter`. */
    ghost function CallArgMap(iter: seq<Vertex>): ArgMap
      reads this
    {
      ArgMapOf(Occurrences(argdeps, iter))
    }

    /** The caller's keyword arguments once the positional ones are bound to the names of `inp_type`. */
    ghost function CallEnv(iter: seq<Vertex>, args: seq<Value>, kwargs: Env): Env
      reads this
    {
      Positional(kwargs, FuncPrimitives.DictKeys(ArgTable(Occurrences(argdeps, iter))), args)
    }

    /**
     * `r` is what the reference evaluator gives when the vertices run in the
     * order `order` up to the output vertex, with the inputs named for the
     * iteration order `iter` and the caller's arguments bound to them.
     */
    ghost predicate RunsAlong(iter: seq<Vertex>, args: seq<Value>, kwargs: Env, order: seq<Vertex>,
                              r: Result<seq<Value>, Error>)
      reads this
      requires Valid()
    {
      WellFormedDepsInRange(vertices, adjacency, argdeps);
      WellFormedArity(vertices, adjacency, argdeps);
      exists s ::
        IsOutputVertex(vertices, adjacency, s) && s in order
        && Reference(argdeps, CallArgMap(iter), CallEnv(iter, args, kwargs), order, IndexIn(order, s),
                     OpenSlots(adjacency[s]), r)
    }

    /**
     * `__call__(*args, **kwargs)`: names the inputs, orders the graph, binds
     * the positional arguments to the input names in order and runs the
     * vertices up to the output vertex. In a coherent graph a successful
     * call returns the reference outputs of the output vertex at its open
     * slots, whatever the iteration order; any call that gets past ordering
     * behaves as the reference evaluator along the order in which the
     * depth-first search for `iter` finishes the vertices, so the error a
     * failing call raises is that of the first failing vertex in that order.
     */
    method Call(iter: seq<Vertex>, args: seq<Value>, kwargs: Env) returns (r: Result<seq<Value>, Error>)
      requires Valid() && IsEnumeration(iter, vertices)
      ensures r == Err(CyclicGraph) <==> HasCycle(argdeps)
      ensures r == Err(NoOutputVertex) <==> !HasCycle(argdeps) && NoOpenVertex(vertices, adjacency)
      ensures r == Err(IncompleteGraph) <==> !HasCycle(argdeps) && TwoOpenVertices(vertices, adjacency)
      ensures r.Err? ==> GraphError(r.error) || CallError(r.error) || r.error.MissingArgument?
      ensures Dfs(iter).Cyclic? <==> HasCycle(argdeps)
      ensures Dfs(iter).Done? ==> IsTopoOrder(vertices, argdeps, Dfs(iter).topo)
      ensures TablesAgree() && r.Ok? ==>
        exists s :: IsOutputVertex(vertices, adjacency, s)
          && Eval(argdeps, CallArgMap(iter), CallEnv(iter, args, kwargs), s, |vertices|).Ok?
          && r.value == Select(Eval(argdeps, CallArgMap(iter), CallEnv(iter, args, kwargs), s, |vertices|).value,
                               OpenSlots(adjacency[s]))
      ensures TablesAgree() && !(r.Err? && GraphError(r.error)) ==>
        Dfs(iter).Done? && RunsAlong(iter, args, kwargs, Dfs(iter).topo, r)
    {
      var inpType, argMap := GetArguments(iter);
      var t := TopoOrder(iter);
      if t.Err? {
        r := Err(t.error);
      } else {
        r := CallOrdered(iter, t.value.0, t.value.1, inpType, argMap, args, kwargs);
      }
      GraphErrorsPass(t, r, HasCycle(argdeps), NoOpenVertex(vertices, adjacency), TwoOpenVertices(vertices, adjacency));
    }

    /**
     * The rest of `__call__` once the graph is ordered along `order` with
     * output vertex `sink`: binds the positional arguments and runs the
     * vertices up to the output vertex.
     */
    method CallOrdered(iter: seq<Vertex>, order: seq<Vertex>, sink: Vertex, inpType: FuncPrimitives.Dict<string, Type>,
                       argMap: ArgMap, args: seq<Value>, kwargs: Env) returns (r: Result<seq<Value>, Error>)
      requires Valid() && IsTopoOrder(vertices, argdeps, order) && IsOutputVertex(vertices, adjacency, sink)
      requires inpType == ArgTable(Occurrences(argdeps, iter)) && argMap == CallArgMap(iter)
      ensures r.Err? ==> CallError(r.error) || r.error.MissingArgument?
      ensures TablesAgree() && r.Ok? ==>
        exists s :: IsOutputVertex(vertices, adjacency, s)
          && Eval(argdeps, CallArgMap(iter), CallEnv(iter, args, kwargs), s, |vertices|).Ok?
          && r.value == Select(Eval(argdeps, CallArgMap(iter), CallEnv(iter, args, kwargs), s, |vertices|).value,
                               OpenSlots(adjacency[s]))
      ensures TablesAgree() ==>
        sink in order
          && Reference(argdeps, CallArgMap(iter), CallEnv(iter, args, kwargs), order, IndexIn(order, sink),
                       OpenSlots(adjacency[sink]), r)
      ensures TablesAgree() ==> RunsAlong(iter, args, kwargs, order, r)
    {
      var outIdx := OutIndices(sink);
      var env := BindPositional(FuncPrimitives.DictKeys(inpType), args, kwargs);
      r := Execute(order, sink, argMap, env, outIdx);
      if TablesAgree() {
        CoherentRows(vertices, adjacency, argdeps);
        CallOutcome(order, sink, iter, args, kwargs, r);
      }
    }

    /** What a coherent graph's call returns once ordered: the reference result along `order`. */
    lemma CallOutcome(order: seq<Vertex>, sink: Vertex, iter: seq<Vertex>, args: seq<Value>, kwargs: Env,
                      r: Result<seq<Value>, Error>)
      requires Valid() && IsTopoOrder(vertices, argdeps, order) && IsOutputVertex(vertices, adjacency, sink)
      requires DepsInRange(argdeps) && sink in order
      requires Reference(argdeps, CallArgMap(iter), CallEnv(iter, args, kwargs), order, IndexIn(order, sink),
                         OpenSlots(adjacency[sink]), r)
      ensures r.Ok? ==>
        exists s :: IsOutputVertex(vertices, adjacency, s)
          && Eval(argdeps, CallArgMap(iter), CallEnv(iter, args, kwargs), s, |vertices|).Ok?
          && r.value == Select(Eval(argdeps, CallArgMap(iter), CallEnv(iter, args, kwargs), s, |vertices|).value,
                               OpenSlots(adjacency[s]))
    {
      DistinctCard(order);
      assert order[IndexIn(order, sink)] == sink;
    }

    /**
     * The loop of `straight_line()` over a topological order ending at the
     * output vertex `sink`, appended to the `>INPUT` line `header`.
     */
    method PrintOrder(header: string, order: seq<Vertex>, sink: Vertex, argMap: ArgMap, outIdx: seq<nat>)
      returns (prog: string)
      requires Valid() && IsTopoOrder(vertices, argdeps, order) && IsOutputVertex(vertices, adjacency, sink)
      ensures RowsCoherent(vertices, adjacency, argdeps) ==>
        sink in order && prog == header + Render.Lines(argdeps, argMap, order, IndexIn(order, sink))
          + Render.ReturnLine(argdeps, argMap, order, IndexIn(order, sink), outIdx)
    {
      WellFormedDepsInRange(vertices, adjacency, argdeps);
      assert sink in Elems(order);
      forall u | u in vertices
        ensures u in adjacency && |adjacency[u]| == u.Arity() && (u != sink ==> !IsOpen(adjacency, u))
      {
        assert RowsOk(vertices, u, adjacency[u], argdeps[u]);
      }
      prog := Render.RenderOrder(header, order, sink, adjacency, argMap, outIdx, vertices, argdeps, IndexIn(order, sink));
    }

    /**
     * `straight_line()`: the graph as a straight-line program over the
     * inputs named by `_get_arguments()`, with the same graph errors as a
     * call, listing the vertices in the order in which the depth-first search
     * for `iter` finishes them: the order a call runs them in.
     */
    method StraightLine(iter: seq<Vertex>) returns (r: Result<string, Error>)
      requires Valid() && IsEnumeration(iter, vertices)
      ensures r == Err(CyclicGraph) <==> HasCycle(argdeps)
      ensures r == Err(NoOutputVertex) <==> !HasCycle(argdeps) && NoOpenVertex(vertices, adjacency)
      ensures r == Err(IncompleteGraph) <==> !HasCycle(argdeps) && TwoOpenVertices(vertices, adjacency)
      ensures r.Err? ==> GraphError(r.error)
      ensures TablesAgree() && r.Ok? ==>
        Dfs(iter).Done? && exists s ::
          IsOutputVertex(vertices, adjacency, s) && s in Dfs(iter).topo
          && r.value == Render.Program(argdeps, CallArgMap(iter), ArgTable(Occurrences(argdeps, iter)), Dfs(iter).topo,
                                       IndexIn(Dfs(iter).topo, s), OpenSlots(adjacency[s]))
    {
      var inpType, argMap := GetArguments(iter);
      var t := TopoOrder(iter);
      if t.Err? {
        return Err(t.error);
      }
      var order, sink := t.value.0, t.value.1;
      var outIdx := OutIndices(sink);
      var prog := PrintOrder(Render.Header(inpType), order, sink, argMap, outIdx);
      r := Ok(prog);
      if TablesAgree() {
        CoherentRows(vertices, adjacency, argdeps);
        assert order[IndexIn(order, sink)] == sink;
      }
    }

    /**
     * `_get_arguments()`: names every unbound keyword, vertex by vertex in
     * the order `iter` and keyword by keyword, as the keyword followed by its
     * count among the earlier unbound occurrences of that keyword.
     */
    method GetArguments(iter: seq<Vertex>) returns (inpType: FuncPrimitives.Dict<string, Type>, argMap: ArgMap)
      requires Valid() && IsEnumeration(iter, vertices)
      ensures inpType == ArgTable(Occurrences(argdeps, iter))
      ensures argMap == ArgMapOf(Occurrences(argdeps, iter))
      ensures forall u, k :: (u, k) in argMap <==> u in vertices && k in u.Keywords() && !IsBound(argdeps, u, k)
      ensures var occ := Occurrences(argdeps, iter);
        |inpType| == |occ|
        && forall j :: 0 <= j < |occ| ==>
          (occ[j].0, occ[j].1.kwd) in argMap && argMap[(occ[j].0, occ[j].1.kwd)] == ArgName(occ, j)
          && inpType[j] == (ArgName(occ, j), occ[j].1.ty)
    {
      var counters: map<string, nat> := map[];
      inpType, argMap := [], map[];
      for i := 0 to |iter|
        invariant Named(counters, inpType, argMap, Occurrences(argdeps, iter[..i]))
      {
        assert iter[i] in Elems(iter);
        assert iter[..i + 1][..i] == iter[..i];
        assert RowsOk(vertices, iter[i], adjacency[iter[i]], argdeps[iter[i]]);
        counters, inpType, argMap := NameArguments(argdeps, iter[i], counters, inpType, argMap, Occurrences(argdeps, iter[..i]));
      }
      assert iter[..|iter|] == iter;
      GraphArguments(argdeps, iter);
      assert forall u :: u in vertices <==> u in iter;
    }
  }

  /**
   * The table updates of `feed`: the edge is appended to the slot, which is
   * created when it was open, and the keyword is bound to the slot.
   */
  method FeedRows(adj: Adjacency, deps: ArgDeps, src: Vertex, idx: nat, dst: Vertex, kwd: string)
    returns (adj': Adjacency, deps': ArgDeps)
    requires src in adj && idx < |adj[src]| && dst in deps
    ensures adj' == FedAdjacency(adj, src, idx, dst, kwd) && deps' == FedArgDeps(deps, src, idx, dst, kwd)
  {
    var slot := adj[src][idx];
    var fed: Slot;
    if slot.Some? {
      fed := Some(slot.value + [(dst, kwd)]);
    } else {
      fed := Some([(dst, kwd)]);
      assert [(dst, kwd)] == SlotList(slot) + [(dst, kwd)];
    }
    adj' := adj[src := adj[src][idx := fed]];
    deps' := deps[dst := deps[dst][kwd := Some((src, idx))]];
  }

  /** The row updates of `add(v)`: no slot of `v` feeds anything, no keyword of `v` is bound. */
  method AddRows(adj: Adjacency, deps: ArgDeps, v: Vertex) returns (adj': Adjacency, deps': ArgDeps)
    ensures adj' == AddedAdjacency(adj, v) && deps' == AddedArgDeps(deps, v)
  {
    adj' := adj[v := seq(v.Arity(), _ => None)];
    deps' := deps[v := map k | k in v.Keywords() :: None];
  }

  /** A run that fails only when ordering fails, or with a call error, has exactly the graph errors of the ordering. */
  lemma GraphErrorsPass<T, U>(t: Result<T, Error>, r: Result<U, Error>, cyclic: bool, none: bool, two: bool)
    requires t == Err(CyclicGraph) <==> cyclic
    requires t == Err(NoOutputVertex) <==> !cyclic && none
    requires t == Err(IncompleteGraph) <==> !cyclic && two
    requires t.Err? ==> GraphError(t.error) && r == Err(t.error)
    requires t.Ok? && r.Err? ==> CallError(r.error) || r.error.MissingArgument?
    ensures r == Err(CyclicGraph) <==> cyclic
    ensures r == Err(NoOutputVertex) <==> !cyclic && none
    ensures r == Err(IncompleteGraph) <==> !cyclic && two
    ensures r.Err? && GraphError(r.error) ==> t.Err?
  {
  }

  /** The state of `_get_arguments()` after naming the occurrences `occ`. */
  ghost predicate Named(counters: map<string, nat>, inpType: FuncPrimitives.Dict<string, Type>, argMap: ArgMap,
                        occ: seq<Occurrence>) {
    Counters(counters, occ) && inpType == ArgTable(occ) && argMap == ArgMapOf(occ)
  }

  /** The inner loop of `_get_arguments()`: the unbound keywords of one vertex. */
  method NameArguments(deps: ArgDeps, v: Vertex, counters: map<string, nat>, inpType: FuncPrimitives.Dict<string, Type>,
                       argMap: ArgMap, ghost occ: seq<Occurrence>)
    returns (counters': map<string, nat>, inpType': FuncPrimitives.Dict<string, Type>, argMap': ArgMap)
    requires v in deps && deps[v].Keys == v.Keywords()
    requires Named(counters, inpType, argMap, occ)
    ensures Named(counters', inpType', argMap', occ + VertexOccurrences(deps, v, v.Params()))
  {
    var ps := v.Params();
    counters', inpType', argMap' := counters, inpType, argMap;
    ghost var done := occ;
    assert ps[..0] == [];
    for j := 0 to |ps|
      invariant done == occ + VertexOccurrences(deps, v, ps[..j])
      invariant Named(counters', inpType', argMap', done)
    {
      DoneStep(deps, v, ps, j, occ, done);
      var kwd := ps[j].kwd;
      assert kwd in v.Keywords();
      assert IsBound(deps, v, kwd) <==> deps[v][kwd].Some?;
      if deps[v][kwd].None? {
        counters', inpType', argMap' := NameOccurrence(v, ps[j], counters', inpType', argMap', done);
        done := done + [(v, ps[j])];
      }
    }
    assert ps[..|ps|] == ps;
  }

  /** One step of the inner loop: number keyword `p.kwd` of `v` and record its name and type. */
  method NameOccurrence(v: Vertex, p: Param, counters: map<string, nat>, inpType: FuncPrimitives.Dict<string, Type>,
                        argMap: ArgMap, ghost occ: seq<Occurrence>)
    returns (counters': map<string, nat>, inpType': FuncPrimitives.Dict<string, Type>, argMap': ArgMap)
    requires Named(counters, inpType, argMap, occ)
    ensures Named(counters', inpType', argMap', occ + [(v, p)])
  {
    var kwd := p.kwd;
    if kwd in counters {
      counters' := counters[kwd := counters[kwd] + 1];
      NameStep(occ, (v, p), counters, counters');
    } else {
      counters' := counters[kwd := 0];
      NameStep(occ, (v, p), counters, counters');
    }
    var argName := kwd + NatToString(counters'[kwd]);
    inpType' := FuncPrimitives.DictSet(inpType, argName, p.ty);
    argMap' := argMap[(v, kwd) := argName];
  }

  /** The occurrences named so far after keyword `j` of `v`, whether or not it is bound. */
  lemma DoneStep(deps: ArgDeps, v: Vertex, ps: seq<Param>, j: nat, occ: seq<Occurrence>, done: seq<Occurrence>)
    requires j < |ps| && done == occ + VertexOccurrences(deps, v, ps[..j])
    ensures IsBound(deps, v, ps[j].kwd) ==> done == occ + VertexOccurrences(deps, v, ps[..j + 1])
    ensures !IsBound(deps, v, ps[j].kwd) ==> done + [(v, ps[j])] == occ + VertexOccurrences(deps, v, ps[..j + 1])
  {
    OccurrencesStep(deps, v, ps, j);
    assert done + [(v, ps[j])] == occ + (VertexOccurrences(deps, v, ps[..j]) + [(v, ps[j])]);
  }

  lemma OccurrencesStep(deps: ArgDeps, v: Vertex, ps: seq<Param>, j: nat)
    requires j < |ps|
    ensures VertexOccurrences(deps, v, ps[..j + 1])
      == VertexOccurrences(deps, v, ps[..j]) + (if IsBound(deps, v, ps[j].kwd) then [] else [(v, ps[j])])
  {
    assert ps[..j + 1][..j] == ps[..j];
  }

  /** One more occurrence: its number is its keyword's count so far, and the counters advance. */
  lemma NameStep(occ: seq<Occurrence>, x: Occurrence, counters: map<string, nat>, counters': map<string, nat>)
    requires Counters(counters, occ)
    requires counters' == if x.1.kwd in counters then counters[x.1.kwd := counters[x.1.kwd] + 1] else counters[x.1.kwd := 0]
    ensures Counters(counters', occ + [x])
    ensures ArgName(occ + [x], |occ|) == x.1.kwd + NatToString(counters'[x.1.kwd])
    ensures ArgTable(occ + [x]) == FuncPrimitives.DictSet(ArgTable(occ), ArgName(occ + [x], |occ|), x.1.ty)
    ensures ArgMapOf(occ + [x]) == ArgMapOf(occ)[(x.0, x.1.kwd) := ArgName(occ + [x], |occ|)]
  {
    CountersStep(occ, x, counters, counters');
    TablesStep(occ, x);
  }

  lemma CountersStep(occ: seq<Occurrence>, x: Occurrence, counters: map<string, nat>, counters': map<string, nat>)
    requires Counters(counters, occ)
    requires counters' == if x.1.kwd in counters then counters[x.1.kwd := counters[x.1.kwd] + 1] else counters[x.1.kwd := 0]
    ensures Counters(counters', occ + [x])
    ensures counters'[x.1.kwd] == CountKwd(occ, x.1.kwd)
  {
    CountStep(occ, x);
    forall k
      ensures (k in counters' <==> CountKwd(occ + [x], k) > 0) && (k in counters' ==> counters'[k] + 1 == CountKwd(occ + [x], k))
    {
      assert (k in counters <==> CountKwd(occ, k) > 0) && (k in counters ==> counters[k] + 1 == CountKwd(occ, k));
    }
  }

  lemma TablesStep(occ: seq<Occurrence>, x: Occurrence)
    ensures ArgName(occ + [x], |occ|) == x.1.kwd + NatToString(CountKwd(occ, x.1.kwd))
    ensures ArgTable(occ + [x]) == FuncPrimitives.DictSet(ArgTable(occ), ArgName(occ + [x], |occ|), x.1.ty)
    ensures ArgMapOf(occ + [x]) == ArgMapOf(occ)[(x.0, x.1.kwd) := ArgName(occ + [x], |occ|)]
  {
    assert (occ + [x])[..|occ|] == occ;
  }

  lemma CountStep(occ: seq<Occurrence>, x: Occurrence)
    ensures forall k {:trigger CountKwd(occ + [x], k)} :: CountKwd(occ + [x], k) == CountKwd(occ, k) + (if x.1.kwd == k then 1 else 0)
  {
    assert (occ + [x])[..|occ|] == occ;
  }

  /** `kwargs` after `for name, value in zip(names, args): kwargs[name] = value`. */
  function Positional(kwargs: Env, names: seq<string>, args: seq<Value>): Env
    decreases |names|
  {
    if names == [] || args == [] then kwargs
    else Positional(kwargs[names[0] := args[0]], names[1..], args[1..])
  }

  /** The keywords after binding: the caller's, plus the first `min(|names|, |args|)` names. */
  lemma {:induction false} PositionalDomain(kwargs: Env, names: seq<string>, args: seq<Value>)
    ensures var env := Positional(kwargs, names, args);
      forall k :: k in env <==> k in kwargs || exists j :: 0 <= j < |names| && j < |args| && names[j] == k
    decreases |names|
  {
    if names != [] && args != [] {
      var kw', ns, xs := kwargs[names[0] := args[0]], names[1..], args[1..];
      PositionalDomain(kw', ns, xs);
      var env := Positional(kwargs, names, args);
      assert env == Positional(kw', ns, xs);
      forall k
        ensures k in env <==> k in kwargs || exists j :: 0 <= j < |names| && j < |args| && names[j] == k
      {
        assert k in env <==> k in kw' || exists j :: 0 <= j < |ns| && j < |xs| && ns[j] == k;
        if k == names[0] {
          assert 0 < |names| && 0 < |args| && names[0] == k;
        } else if exists j :: 0 <= j < |names| && j < |args| && names[j] == k {
          var j :| 0 <= j < |names| && j < |args| && names[j] == k;
          assert j > 0 && ns[j - 1] == k;
        }
        if exists j :: 0 <= j < |ns| && j < |xs| && ns[j] == k {
          var j :| 0 <= j < |ns| && j < |xs| && ns[j] == k;
          assert names[j + 1] == k;
        }
      }
    }
  }

  /** A keyword argument that no bound name overwrites keeps its value. */
  lemma {:induction false} PositionalKeeps(kwargs: Env, names: seq<string>, args: seq<Value>)
    ensures var env := Positional(kwargs, names, args);
      forall k :: k in kwargs && (forall j :: 0 <= j < |names| && j < |args| ==> names[j] != k) ==>
        k in env && env[k] == kwargs[k]
    decreases |names|
  {
    if names != [] && args != [] {
      var kw', ns, xs := kwargs[names[0] := args[0]], names[1..], args[1..];
      PositionalKeeps(kw', ns, xs);
      assert Positional(kwargs, names, args) == Positional(kw', ns, xs);
      forall k | k in kwargs && (forall j :: 0 <= j < |names| && j < |args| ==> names[j] != k)
        ensures forall j :: 0 <= j < |ns| && j < |xs| ==> ns[j] != k
      {
        forall j | 0 <= j < |ns| && j < |xs|
          ensures ns[j] != k
        {
          assert ns[j] == names[j + 1];
        }
      }
    }
  }

  /** With distinct names, each of the first `min(|names|, |args|)` names is bound to its argument. */
  lemma {:induction false} PositionalBinds(kwargs: Env, names: seq<string>, args: seq<Value>)
    ensures var env := Positional(kwargs, names, args);
      Distinct(names) ==> forall j :: 0 <= j < |names| && j < |args| ==> names[j] in env && env[names[j]] == args[j]
    decreases |names|
  {
    if names != [] && args != [] && Distinct(names) {
      var kw', ns, xs := kwargs[names[0] := args[0]], names[1..], args[1..];
      assert Distinct(ns) by {
        forall i, j | 0 <= i < j < |ns|
          ensures ns[i] != ns[j]
        {
          assert ns[i] == names[i + 1] && ns[j] == names[j + 1];
        }
      }
      PositionalBinds(kw', ns, xs);
      PositionalKeeps(kw', ns, xs);
      var env := Positional(kwargs, names, args);
      assert env == Positional(kw', ns, xs);
      forall j | 0 <= j < |names| && j < |args|
        ensures names[j] in env && env[names[j]] == args[j]
      {
        if j == 0 {
          forall i | 0 <= i < |ns| && i < |xs|
            ensures ns[i] != names[0]
          {
            assert ns[i] == names[i + 1];
          }
        } else {
          assert ns[j - 1] == names[j] && xs[j - 1] == args[j];
        }
      }
    }
  }

  /** The binding loop of `__call__`. */
  method BindPositional(names: seq<string>, args: seq<Value>, kwargs: Env) returns (env: Env)
    ensures env == Positional(kwargs, names, args)
  {
    env := kwargs;
    var n := if |names| < |args| then |names| else |args|;
    for j := 0 to n
      invariant Positional(env, names[j..], args[j..]) == Positional(kwargs, names, args)
    {
      assert names[j..][1..] == names[j + 1..] && args[j..][1..] == args[j + 1..];
      env := env[names[j] := args[j]];
    }
  }
}

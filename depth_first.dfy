/**
 * The depth-first search of `_get_topo_order` written as functions: the
 * order it finishes the vertices in is determined by the graph and by the
 * iteration order of the set of vertices. The `FuncGraph` methods that run
 * the search are proved to compute exactly these functions.
 */
module DepthFirst {
  import opened Wrappers
  import opened Vertices
  import opened GraphSpec

  /** The end of a search: a back edge was met, or the vertices seen and the finished ones in order. */
  datatype Outcome = Cyclic | Done(visited: set<Vertex>, topo: seq<Vertex>)

  /** Every bound keyword reads from a vertex of `vs`. */
  predicate Closed(vs: set<Vertex>, deps: ArgDeps) {
    forall u, k :: u in deps && k in deps[u] && deps[u][k].Some? ==> deps[u][k].value.0 in vs
  }

  lemma WellFormedClosed(vs: set<Vertex>, adj: Adjacency, deps: ArgDeps)
    requires WellFormed(vs, adj, deps)
    ensures Closed(vs, deps)
  {
    forall u, k | u in deps && k in deps[u] && deps[u][k].Some?
      ensures deps[u][k].value.0 in vs
    {
      assert RowsOk(vs, u, adj[u], deps[u]);
    }
  }

  /**
   * `dfs(v)`: marks `v` as seen and on the stack `rec`, visits the producers
   * of its keywords in order, then finishes `v`.
   */
  function VisitFrom(vs: set<Vertex>, deps: ArgDeps, v: Vertex, vis: set<Vertex>, rec: set<Vertex>,
                     topo: seq<Vertex>): (r: Outcome)
    requires Closed(vs, deps) && v in vs && v !in vis && vis <= vs
    ensures r.Done? ==> vis + {v} <= r.visited <= vs && topo < r.topo && r.topo[|r.topo| - 1] == v
    decreases vs - vis, 0
  {
    KeysFrom(vs, deps, v, v.Params(), 0, vis + {v}, rec + {v}, topo)
  }

  /**
   * The loop of `dfs(v)` from its `j`-th keyword on: an unbound keyword is
   * skipped, a producer on the stack is a back edge, a producer not yet seen
   * is visited; after the last keyword `v` is finished.
   */
  function KeysFrom(vs: set<Vertex>, deps: ArgDeps, v: Vertex, ps: seq<Param>, j: nat, vis: set<Vertex>,
                    rec: set<Vertex>, topo: seq<Vertex>): (r: Outcome)
    requires Closed(vs, deps) && j <= |ps| && vis <= vs
    ensures r.Done? ==> vis <= r.visited <= vs && topo < r.topo && r.topo[|r.topo| - 1] == v
    decreases vs - vis, 1, |ps| - j
  {
    if j == |ps| then
      Done(vis, topo + [v])
    else if !IsBound(deps, v, ps[j].kwd) then
      KeysFrom(vs, deps, v, ps, j + 1, vis, rec, topo)
    else
      var dst := deps[v][ps[j].kwd].value.0;
      if dst in rec then
        Cyclic
      else if dst in vis then
        KeysFrom(vs, deps, v, ps, j + 1, vis, rec, topo)
      else
        match VisitFrom(vs, deps, dst, vis, rec, topo)
        case Cyclic => Cyclic
        case Done(vis', topo') =>
          assert dst in vs - vis && dst !in vs - vis';
          KeysFrom(vs, deps, v, ps, j + 1, vis', rec, topo')
  }

  /** An unbound keyword, or a producer already finished, leaves the rest of the loop as it was. */
  lemma KeysSkip(vs: set<Vertex>, deps: ArgDeps, v: Vertex, ps: seq<Param>, j: nat, vis: set<Vertex>,
                 rec: set<Vertex>, topo: seq<Vertex>)
    requires Closed(vs, deps) && j < |ps| && vis <= vs
    requires IsBound(deps, v, ps[j].kwd) ==> deps[v][ps[j].kwd].value.0 !in rec && deps[v][ps[j].kwd].value.0 in vis
    ensures KeysFrom(vs, deps, v, ps, j, vis, rec, topo) == KeysFrom(vs, deps, v, ps, j + 1, vis, rec, topo)
  {
  }

  /** A producer still on the stack is a back edge. */
  lemma KeysBackEdge(vs: set<Vertex>, deps: ArgDeps, v: Vertex, ps: seq<Param>, j: nat, vis: set<Vertex>,
                     rec: set<Vertex>, topo: seq<Vertex>)
    requires Closed(vs, deps) && j < |ps| && vis <= vs
    requires IsBound(deps, v, ps[j].kwd) && deps[v][ps[j].kwd].value.0 in rec
    ensures KeysFrom(vs, deps, v, ps, j, vis, rec, topo) == Cyclic
  {
  }

  /** A producer not yet seen is visited, and the loop goes on from what the visit leaves. */
  lemma KeysDescend(vs: set<Vertex>, deps: ArgDeps, v: Vertex, ps: seq<Param>, j: nat, vis: set<Vertex>,
                    rec: set<Vertex>, topo: seq<Vertex>)
    requires Closed(vs, deps) && j < |ps| && vis <= vs
    requires IsBound(deps, v, ps[j].kwd)
    requires deps[v][ps[j].kwd].value.0 !in rec && deps[v][ps[j].kwd].value.0 !in vis
    ensures deps[v][ps[j].kwd].value.0 in vs
    ensures VisitFrom(vs, deps, deps[v][ps[j].kwd].value.0, vis, rec, topo).Cyclic? ==>
              KeysFrom(vs, deps, v, ps, j, vis, rec, topo) == Cyclic
    ensures VisitFrom(vs, deps, deps[v][ps[j].kwd].value.0, vis, rec, topo).Done? ==>
              var next := VisitFrom(vs, deps, deps[v][ps[j].kwd].value.0, vis, rec, topo);
              KeysFrom(vs, deps, v, ps, j, vis, rec, topo) == KeysFrom(vs, deps, v, ps, j + 1, next.visited, rec, next.topo)
  {
  }

  /** The outer loop of `_get_topo_order` from the `i`-th vertex of `iter` on. */
  function SweepFrom(vs: set<Vertex>, deps: ArgDeps, iter: seq<Vertex>, i: nat, vis: set<Vertex>,
                     topo: seq<Vertex>): (r: Outcome)
    requires Closed(vs, deps) && i <= |iter| && Elems(iter) <= vs && vis <= vs
    ensures r.Done? ==> vis <= r.visited <= vs && topo <= r.topo
    ensures r.Done? ==> Elems(iter[i..]) <= r.visited
    decreases |iter| - i
  {
    if i == |iter| then
      Done(vis, topo)
    else
      assert iter[i] in Elems(iter);
      assert Elems(iter[i..]) == {iter[i]} + Elems(iter[i + 1..]) by {
        assert iter[i..] == [iter[i]] + iter[i + 1..];
      }
      if iter[i] in vis then
        SweepFrom(vs, deps, iter, i + 1, vis, topo)
      else
        match VisitFrom(vs, deps, iter[i], vis, {}, topo)
        case Cyclic => Cyclic
        case Done(vis', topo') => SweepFrom(vs, deps, iter, i + 1, vis', topo')
  }

  /** One pass of the outer loop: a vertex already seen is skipped, any other is visited. */
  lemma SweepNext(vs: set<Vertex>, deps: ArgDeps, iter: seq<Vertex>, i: nat, vis: set<Vertex>, topo: seq<Vertex>)
    requires Closed(vs, deps) && i < |iter| && Elems(iter) <= vs && vis <= vs
    ensures iter[i] in vs
    ensures iter[i] in vis ==> SweepFrom(vs, deps, iter, i, vis, topo) == SweepFrom(vs, deps, iter, i + 1, vis, topo)
    ensures iter[i] !in vis && VisitFrom(vs, deps, iter[i], vis, {}, topo).Cyclic? ==>
              SweepFrom(vs, deps, iter, i, vis, topo) == Cyclic
    ensures iter[i] !in vis && VisitFrom(vs, deps, iter[i], vis, {}, topo).Done? ==>
              var next := VisitFrom(vs, deps, iter[i], vis, {}, topo);
              SweepFrom(vs, deps, iter, i, vis, topo) == SweepFrom(vs, deps, iter, i + 1, next.visited, next.topo)
  {
    assert iter[i] in Elems(iter);
  }

  /**
   * The search of `_get_topo_order` from every vertex in the order `iter`:
   * a back edge, or the order in which it finishes the vertices.
   */
  function DfsOrder(vs: set<Vertex>, deps: ArgDeps, iter: seq<Vertex>): (r: Outcome)
    requires Closed(vs, deps) && Elems(iter) <= vs
    ensures r.Done? ==> Elems(iter) <= r.visited <= vs
  {
    assert iter[0..] == iter;
    SweepFrom(vs, deps, iter, 0, {}, [])
  }
}

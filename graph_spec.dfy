/**
 * The edge tables of a FuncGraph as values, and what they mean:
 * well-formedness, agreement between the two tables, dependency paths and
 * cycles, topological orders, open output slots, and the effect of `add`
 * and `feed` on the tables.
 */
module GraphSpec {
  import opened Wrappers
  import opened Vertices

  /** `(consumer, kwd)`: an entry of a slot list in `adjacency`. */
  type Edge = (Vertex, string)
  /** `(producer, out_idx)`: a bound entry of `argdeps`. */
  type Dep = (Vertex, nat)
  /** An output slot: `None` while open, else the list of consumers it feeds. */
  type Slot = Option<seq<Edge>>
  /** `adjacency`: vertex -> one slot per output. */
  type Adjacency = map<Vertex, seq<Slot>>
  /** `argdeps`: vertex -> keyword -> producer, or `None` while unbound. */
  type ArgDeps = map<Vertex, map<string, Option<Dep>>>

  function Elems<T>(s: seq<T>): set<T> {
    set x | x in s
  }

  /** The elements of a prefix one longer are those of the prefix and the next element. */
  lemma ElemsPrefixStep<T>(s: seq<T>, i: nat)
    requires i < |s|
    ensures Elems(s[..i + 1]) == Elems(s[..i]) + {s[i]}
  {
    assert s[..i + 1] == s[..i] + [s[i]];
  }

  predicate Distinct<T(==)>(s: seq<T>) {
    forall i, j :: 0 <= i < j < |s| ==> s[i] != s[j]
  }

  /** `iter` lists every vertex of `vs` exactly once: one iteration order of a Python set. */
  predicate IsEnumeration(iter: seq<Vertex>, vs: set<Vertex>) {
    Distinct(iter) && Elems(iter) == vs
  }

  /** A sequence without repetitions is as long as the set of its elements is large. */
  lemma {:induction false} DistinctCard<T>(s: seq<T>)
    requires Distinct(s)
    ensures |Elems(s)| == |s|
  {
    if s != [] {
      var n := |s| - 1;
      assert Distinct(s[..n]);
      DistinctCard(s[..n]);
      assert Elems(s) == Elems(s[..n]) + {s[n]};
      assert s[n] !in Elems(s[..n]);
    }
  }

  function SlotList(s: Slot): seq<Edge> {
    if s.Some? then s.value else []
  }

  /** `argdeps[v][k]` names a producer. */
  predicate IsBound(deps: ArgDeps, v: Vertex, k: string) {
    v in deps && k in deps[v] && deps[v][k].Some?
  }

  /** Edge `e` is listed in the slot that `dep` names. */
  predicate Listed(adj: Adjacency, dep: Dep, e: Edge) {
    dep.0 in adj && dep.1 < |adj[dep.0]| && e in SlotList(adj[dep.0][dep.1])
  }

  /** The keyword of edge `e` is bound to the slot that `dep` names. */
  predicate BoundTo(deps: ArgDeps, e: Edge, dep: Dep) {
    e.0 in deps && e.1 in deps[e.0] && deps[e.0][e.1] == Some(dep)
  }

  /** Every edge in `slots` names a vertex of `vs` and one of its keywords. */
  predicate TargetsIn(vs: set<Vertex>, slots: seq<Slot>) {
    forall i, e :: 0 <= i < |slots| && e in SlotList(slots[i]) ==> e.0 in vs && e.1 in e.0.Keywords()
  }

  /** Every bound keyword in `m` names a vertex of `vs` and one of its slots. */
  predicate ProducersOk(vs: set<Vertex>, m: map<string, Option<Dep>>) {
    forall k :: k in m && m[k].Some? ==> m[k].value.0 in vs && m[k].value.1 < m[k].value.0.Arity()
  }

  /** The rows of `v`: one slot per output, one entry per keyword, edges inside `vs`. */
  predicate RowsOk(vs: set<Vertex>, v: Vertex, slots: seq<Slot>, m: map<string, Option<Dep>>) {
    |slots| == v.Arity() && m.Keys == v.Keywords() && TargetsIn(vs, slots) && ProducersOk(vs, m)
  }

  /**
   * The tables cover exactly the graph's vertices, each with one slot per
   * output and one entry per keyword, and every edge names vertices of the
   * graph, keywords of its consumer and slots of its producer.
   */
  predicate WellFormed(vs: set<Vertex>, adj: Adjacency, deps: ArgDeps) {
    && adj.Keys == vs
    && deps.Keys == vs
    && forall v :: v in vs ==> RowsOk(vs, v, adj[v], deps[v])
  }

  /** Every vertex of a well-formed graph has one slot per output. */
  lemma WellFormedArity(vs: set<Vertex>, adj: Adjacency, deps: ArgDeps)
    requires WellFormed(vs, adj, deps)
    ensures forall u :: u in vs ==> u in adj && |adj[u]| == u.Arity()
  {
    forall u | u in vs
      ensures u in adj && |adj[u]| == u.Arity()
    {
      assert RowsOk(vs, u, adj[u], deps[u]);
    }
  }

  /**
   * The two tables agree: a keyword is bound to `(p, i)` exactly when it is
   * listed in slot `i` of `p`. Re-feeding a bound keyword breaks this (the old
   * slot keeps a stale entry).
   */
  predicate Coherent(vs: set<Vertex>, adj: Adjacency, deps: ArgDeps) {
    && WellFormed(vs, adj, deps)
    && (forall d, k :: d in deps && k in deps[d] && deps[d][k].Some? ==> Listed(adj, deps[d][k].value, (d, k)))
    && (forall p, i, e :: p in adj && 0 <= i < |adj[p]| && e in SlotList(adj[p][i]) ==> BoundTo(deps, e, (p, i)))
  }

  /** `v` reads one of its keywords from an output of `p`. */
  ghost predicate DependsOn(deps: ArgDeps, v: Vertex, older p: Vertex) {
    exists k :: IsBound(deps, v, k) && deps[v][k].value.0 == p
  }

  /** Every producer `v` reads from is in `done`. */
  ghost predicate ProducersIn(deps: ArgDeps, v: Vertex, done: set<Vertex>) {
    forall p :: DependsOn(deps, v, p) ==> p in done
  }

  /** Each vertex of `ord` comes after all of its producers. */
  ghost predicate ProducersFirst(deps: ArgDeps, ord: seq<Vertex>) {
    forall i :: 0 <= i < |ord| ==> ProducersIn(deps, ord[i], Elems(ord[..i]))
  }

  /** A topological order: every vertex once, each after all of its producers. */
  ghost predicate IsTopoOrder(vs: set<Vertex>, deps: ArgDeps, ord: seq<Vertex>) {
    IsEnumeration(ord, vs) && ProducersFirst(deps, ord)
  }

  lemma ProducersFirstAppend(deps: ArgDeps, ord: seq<Vertex>, v: Vertex)
    requires ProducersFirst(deps, ord) && ProducersIn(deps, v, Elems(ord))
    ensures ProducersFirst(deps, ord + [v])
  {
    var ord' := ord + [v];
    assert ord'[..|ord|] == ord;
    forall i | 0 <= i < |ord'|
      ensures ProducersIn(deps, ord'[i], Elems(ord'[..i]))
    {
      if i < |ord| {
        assert ord'[..i] == ord[..i];
      }
    }
  }

  /** Each vertex of `chain` depends on the next one. */
  ghost predicate IsDepChain(deps: ArgDeps, chain: seq<Vertex>) {
    forall i :: 0 <= i < |chain| - 1 ==> DependsOn(deps, chain[i], chain[i + 1])
  }

  lemma DepChainExtend(deps: ArgDeps, chain: seq<Vertex>, v: Vertex)
    requires IsDepChain(deps, chain) && (chain != [] ==> DependsOn(deps, chain[|chain| - 1], v))
    ensures IsDepChain(deps, chain + [v])
  {
    var c := chain + [v];
    forall i | 0 <= i < |c| - 1
      ensures DependsOn(deps, c[i], c[i + 1])
    {
      if i < |chain| - 1 {
        assert c[i] == chain[i] && c[i + 1] == chain[i + 1];
      }
    }
  }

  lemma DepChainShrink(deps: ArgDeps, chain: seq<Vertex>, v: Vertex)
    requires IsDepChain(deps, chain + [v])
    ensures IsDepChain(deps, chain)
  {
    var c := chain + [v];
    forall i | 0 <= i < |chain| - 1
      ensures DependsOn(deps, chain[i], chain[i + 1])
    {
      assert c[i] == chain[i] && c[i + 1] == chain[i + 1];
    }
  }

  /** A walk along `argdeps` from consumers to producers. */
  ghost predicate IsDepPath(deps: ArgDeps, older path: seq<Vertex>) {
    && |path| >= 2 && path[0] in deps && DependsOn(deps, path[0], path[1])
    && (|path| == 2 || IsDepPath(deps, path[1..]))
  }

  lemma {:induction false} DepPathSteps(deps: ArgDeps, path: seq<Vertex>)
    requires IsDepPath(deps, path)
    ensures forall i :: 0 <= i < |path| - 1 ==> DependsOn(deps, path[i], path[i + 1])
  {
    if |path| > 2 {
      DepPathSteps(deps, path[1..]);
      assert forall i :: 1 <= i < |path| - 1 ==> path[i] == path[1..][i - 1];
    }
  }

  /** A path given step by step is a dependency path. */
  lemma {:induction false} StepsDepPath(deps: ArgDeps, path: seq<Vertex>)
    requires |path| >= 2 && forall i :: 0 <= i < |path| ==> path[i] in deps
    requires forall i :: 0 <= i < |path| - 1 ==> DependsOn(deps, path[i], path[i + 1])
    ensures IsDepPath(deps, path)
  {
    if |path| > 2 {
      StepsDepPath(deps, path[1..]);
    }
  }

  /**
   * A dependency chain whose last vertex depends on a vertex of the chain
   * closes a cycle: the search that meets a vertex still on its stack has
   * found one.
   */
  lemma CycleFromBackEdge(deps: ArgDeps, st: seq<Vertex>, dst: Vertex)
    requires st != [] && dst in Elems(st) && Elems(st) <= deps.Keys
    requires IsDepChain(deps, st) && DependsOn(deps, st[|st| - 1], dst)
    ensures HasCycle(deps)
  {
    var m :| 0 <= m < |st| && st[m] == dst;
    var path := st[m..] + [dst];
    BackEdgePath(deps, st, m, dst);
    StepsDepPath(deps, path);
    assert path[0] == path[|path| - 1];
  }

  lemma BackEdgePath(deps: ArgDeps, st: seq<Vertex>, m: nat, dst: Vertex)
    requires m < |st| && st[m] == dst && Elems(st) <= deps.Keys
    requires IsDepChain(deps, st) && DependsOn(deps, st[|st| - 1], dst)
    ensures var path := st[m..] + [dst];
      (forall i :: 0 <= i < |path| ==> path[i] in deps)
      && forall i :: 0 <= i < |path| - 1 ==> DependsOn(deps, path[i], path[i + 1])
  {
    var path := st[m..] + [dst];
    forall i | 0 <= i < |path| - 1
      ensures DependsOn(deps, path[i], path[i + 1])
    {
      if i < |path| - 2 {
        assert path[i] == st[m + i] && path[i + 1] == st[m + i + 1];
      }
    }
    forall i | 0 <= i < |path|
      ensures path[i] in deps
    {
      if i < |path| - 1 {
        assert path[i] == st[m + i];
      }
    }
  }

  /** Some vertex depends on itself, directly or through others. */
  ghost predicate HasCycle(deps: ArgDeps) {
    exists path :: IsDepPath(deps, path) && path[0] == path[|path| - 1]
  }

  function IndexIn(ord: seq<Vertex>, v: Vertex): (i: nat)
    requires v in ord
    ensures i < |ord| && ord[i] == v
  {
    if ord[0] == v then 0 else 1 + IndexIn(ord[1..], v)
  }

  /** In a topological order a producer comes strictly before its consumer. */
  lemma ProducerFirst(vs: set<Vertex>, deps: ArgDeps, ord: seq<Vertex>, i: nat, p: Vertex)
    requires IsTopoOrder(vs, deps, ord)
    requires i < |ord| && DependsOn(deps, ord[i], p)
    ensures p in ord && IndexIn(ord, p) < i
  {
    assert p in Elems(ord[..i]);
    var j :| 0 <= j < i && ord[..i][j] == p;
    assert ord[j] == p;
  }

  lemma {:induction false} PathDescends(vs: set<Vertex>, deps: ArgDeps, ord: seq<Vertex>, path: seq<Vertex>, k: nat)
    requires deps.Keys == vs && IsTopoOrder(vs, deps, ord)
    requires IsDepPath(deps, path) && 1 <= k < |path|
    requires forall i :: 0 <= i < |path| - 1 ==> DependsOn(deps, path[i], path[i + 1])
    ensures path[0] in ord && path[k] in ord && IndexIn(ord, path[k]) < IndexIn(ord, path[0])
    decreases k
  {
    assert path[0] in Elems(ord);
    if k == 1 {
      ProducerFirst(vs, deps, ord, IndexIn(ord, path[0]), path[1]);
    } else {
      PathDescends(vs, deps, ord, path, k - 1);
      ProducerFirst(vs, deps, ord, IndexIn(ord, path[k - 1]), path[k]);
    }
  }

  /** A graph that has a topological order has no cycle. */
  lemma TopoOrderAcyclic(vs: set<Vertex>, deps: ArgDeps, ord: seq<Vertex>)
    requires deps.Keys == vs && IsTopoOrder(vs, deps, ord)
    ensures !HasCycle(deps)
  {
    forall path | IsDepPath(deps, path)
      ensures path[0] != path[|path| - 1]
    {
      DepPathSteps(deps, path);
      PathDescends(vs, deps, ord, path, |path| - 1);
    }
  }

  /** `None in adjacency[v]`: `v` has an output nobody consumes. */
  predicate IsOpen(adj: Adjacency, v: Vertex) {
    v in adj && None in adj[v]
  }

  /** `s` is the output vertex: the only vertex of the graph with an open slot. */
  predicate IsOutputVertex(vs: set<Vertex>, adj: Adjacency, s: Vertex) {
    s in vs && IsOpen(adj, s) && forall u :: u in vs && IsOpen(adj, u) ==> u == s
  }

  predicate NoOpenVertex(vs: set<Vertex>, adj: Adjacency) {
    forall u :: u in vs ==> !IsOpen(adj, u)
  }

  predicate TwoOpenVertices(vs: set<Vertex>, adj: Adjacency) {
    exists u, w :: u in vs && w in vs && u != w && IsOpen(adj, u) && IsOpen(adj, w)
  }

  /** The three outcomes of the search for the output vertex exclude each other. */
  lemma OpenTrichotomy(vs: set<Vertex>, adj: Adjacency)
    ensures NoOpenVertex(vs, adj) ==> !TwoOpenVertices(vs, adj) && forall s :: !IsOutputVertex(vs, adj, s)
    ensures forall s :: IsOutputVertex(vs, adj, s) ==> !TwoOpenVertices(vs, adj) && !NoOpenVertex(vs, adj)
  {
  }

  /** The indices of the open slots, in ascending order. */
  function OpenSlots(slots: seq<Slot>): (r: seq<nat>)
    ensures forall j :: 0 <= j < |r| ==> r[j] < |slots| && slots[r[j]].None?
    ensures forall i :: 0 <= i < |slots| && slots[i].None? ==> i in r
    ensures forall j, k :: 0 <= j < k < |r| ==> r[j] < r[k]
  {
    if slots == [] then []
    else OpenSlots(slots[..|slots| - 1]) + (if slots[|slots| - 1].None? then [|slots| - 1] else [])
  }

  lemma OpenSlotsStep(slots: seq<Slot>, e: nat)
    requires e < |slots|
    ensures OpenSlots(slots[..e + 1]) == OpenSlots(slots[..e]) + (if slots[e].None? then [e] else [])
  {
    assert slots[..e + 1][..e] == slots[..e];
  }

  /** The tables after `add(v)`: every slot of `v` open and every keyword unbound. */
  function AddedAdjacency(adj: Adjacency, v: Vertex): Adjacency {
    adj[v := seq(v.Arity(), _ => None)]
  }

  function AddedArgDeps(deps: ArgDeps, v: Vertex): ArgDeps {
    deps[v := map k | k in v.Keywords() :: None]
  }

  /** The tables after `feed(src, idx, dst, kwd)`. */
  function FedAdjacency(adj: Adjacency, src: Vertex, idx: nat, dst: Vertex, kwd: string): Adjacency
    requires src in adj && idx < |adj[src]|
  {
    adj[src := adj[src][idx := Some(SlotList(adj[src][idx]) + [(dst, kwd)])]]
  }

  function FedArgDeps(deps: ArgDeps, src: Vertex, idx: nat, dst: Vertex, kwd: string): ArgDeps
    requires dst in deps
  {
    deps[dst := deps[dst][kwd := Some((src, idx))]]
  }

  /** `add` keeps the tables well formed, even when `v` was already in the graph. */
  lemma AddKeepsWellFormed(vs: set<Vertex>, adj: Adjacency, deps: ArgDeps, v: Vertex)
    requires WellFormed(vs, adj, deps)
    ensures WellFormed(vs + {v}, AddedAdjacency(adj, v), AddedArgDeps(deps, v))
  {
    var adj', deps' := AddedAdjacency(adj, v), AddedArgDeps(deps, v);
    forall u | u in vs + {v}
      ensures RowsOk(vs + {v}, u, adj'[u], deps'[u])
    {
      if u != v {
        assert adj'[u] == adj[u] && deps'[u] == deps[u];
        RowsOkGrow(vs, v, u, adj[u], deps[u]);
      } else {
        FreshRowsOk(vs, v);
      }
    }
  }

  lemma RowsOkGrow(vs: set<Vertex>, w: Vertex, u: Vertex, slots: seq<Slot>, m: map<string, Option<Dep>>)
    requires RowsOk(vs, u, slots, m)
    ensures RowsOk(vs + {w}, u, slots, m)
  {
  }

  lemma FreshRowsOk(vs: set<Vertex>, v: Vertex)
    ensures RowsOk(vs + {v}, v, seq(v.Arity(), _ => None), map k | k in v.Keywords() :: None)
  {
  }

  /** `add` keeps the tables well formed, and in agreement when the vertex is new. */
  lemma AddKeeps(vs: set<Vertex>, adj: Adjacency, deps: ArgDeps, adj': Adjacency, deps': ArgDeps, v: Vertex)
    requires WellFormed(vs, adj, deps)
    requires adj' == AddedAdjacency(adj, v) && deps' == AddedArgDeps(deps, v)
    ensures WellFormed(vs + {v}, adj', deps')
    ensures Coherent(vs, adj, deps) && v !in vs ==> Coherent(vs + {v}, adj', deps')
  {
    AddKeepsWellFormed(vs, adj, deps, v);
    if Coherent(vs, adj, deps) && v !in vs {
      AddFreshKeepsCoherent(vs, adj, deps, v);
    }
  }

  /** Adding a new vertex keeps the tables in agreement. */
  lemma AddFreshKeepsCoherent(vs: set<Vertex>, adj: Adjacency, deps: ArgDeps, v: Vertex)
    requires Coherent(vs, adj, deps) && v !in vs
    ensures Coherent(vs + {v}, AddedAdjacency(adj, v), AddedArgDeps(deps, v))
  {
    var adj', deps' := AddedAdjacency(adj, v), AddedArgDeps(deps, v);
    AddKeepsWellFormed(vs, adj, deps, v);
    forall d, k | d in deps' && IsBound(deps', d, k)
      ensures Listed(adj', deps'[d][k].value, (d, k))
    {
      assert d != v && IsBound(deps, d, k);
      assert RowsOk(vs, d, adj[d], deps[d]);
    }
    forall p, i, e | p in adj' && 0 <= i < |adj'[p]| && e in SlotList(adj'[p][i])
      ensures BoundTo(deps', e, (p, i))
    {
      assert p != v && BoundTo(deps, e, (p, i));
    }
  }

  lemma TargetsAppend(vs: set<Vertex>, slots: seq<Slot>, idx: nat, e: Edge)
    requires TargetsIn(vs, slots) && idx < |slots| && e.0 in vs && e.1 in e.0.Keywords()
    ensures TargetsIn(vs, slots[idx := Some(SlotList(slots[idx]) + [e])])
  {
    var slots' := slots[idx := Some(SlotList(slots[idx]) + [e])];
    forall i, f | 0 <= i < |slots'| && f in SlotList(slots'[i])
      ensures f.0 in vs && f.1 in f.0.Keywords()
    {
      if i != idx || f != e {
        assert f in SlotList(slots[i]);
      }
    }
  }

  /** `feed` keeps the tables well formed. */
  lemma FeedKeepsWellFormed(vs: set<Vertex>, adj: Adjacency, deps: ArgDeps,
                            src: Vertex, idx: nat, dst: Vertex, kwd: string)
    requires WellFormed(vs, adj, deps)
    requires src in vs && dst in vs && idx < src.Arity() && kwd in dst.Keywords()
    ensures WellFormed(vs, FedAdjacency(adj, src, idx, dst, kwd), FedArgDeps(deps, src, idx, dst, kwd))
  {
    var srcRow := adj[src][idx := Some(SlotList(adj[src][idx]) + [(dst, kwd)])];
    var dstRow := deps[dst][kwd := Some((src, idx))];
    var adj': Adjacency, deps': ArgDeps := adj[src := srcRow], deps[dst := dstRow];
    assert RowsOk(vs, src, adj[src], deps[src]);
    TargetsAppend(vs, adj[src], idx, (dst, kwd));
    forall u | u in vs
      ensures RowsOk(vs, u, adj'[u], deps'[u])
    {
      assert RowsOk(vs, u, adj[u], deps[u]);
    }
  }

  /** Feeding a keyword that is still unbound keeps the tables in agreement. */
  lemma FeedKeepsCoherent(vs: set<Vertex>, adj: Adjacency, deps: ArgDeps,
                          src: Vertex, idx: nat, dst: Vertex, kwd: string)
    requires Coherent(vs, adj, deps)
    requires src in vs && dst in vs && idx < src.Arity() && kwd in dst.Keywords()
    requires !IsBound(deps, dst, kwd)
    ensures Coherent(vs, FedAdjacency(adj, src, idx, dst, kwd), FedArgDeps(deps, src, idx, dst, kwd))
  {
    FeedKeepsWellFormed(vs, adj, deps, src, idx, dst, kwd);
    FeedKeepsListed(vs, adj, deps, src, idx, dst, kwd);
    FeedKeepsBound(vs, adj, deps, src, idx, dst, kwd);
  }

  /** What `feed` keeps, in one statement: well-formedness always, agreement when `kwd` was unbound. */
  lemma FeedKeeps(vs: set<Vertex>, adj: Adjacency, deps: ArgDeps, adj': Adjacency, deps': ArgDeps,
                  src: Vertex, idx: nat, dst: Vertex, kwd: string)
    requires WellFormed(vs, adj, deps)
    requires src in vs && dst in vs && idx < src.Arity() && kwd in dst.Keywords()
    requires adj' == FedAdjacency(adj, src, idx, dst, kwd) && deps' == FedArgDeps(deps, src, idx, dst, kwd)
    ensures WellFormed(vs, adj', deps')
    ensures Coherent(vs, adj, deps) && !IsBound(deps, dst, kwd) ==> Coherent(vs, adj', deps')
  {
    FeedKeepsWellFormed(vs, adj, deps, src, idx, dst, kwd);
    if Coherent(vs, adj, deps) && !IsBound(deps, dst, kwd) {
      FeedKeepsCoherent(vs, adj, deps, src, idx, dst, kwd);
    }
  }

  lemma FeedKeepsListed(vs: set<Vertex>, adj: Adjacency, deps: ArgDeps,
                        src: Vertex, idx: nat, dst: Vertex, kwd: string)
    requires Coherent(vs, adj, deps)
    requires src in vs && dst in vs && idx < src.Arity() && kwd in dst.Keywords()
    ensures var adj', deps' := FedAdjacency(adj, src, idx, dst, kwd), FedArgDeps(deps, src, idx, dst, kwd);
      forall d, k :: d in deps' && k in deps'[d] && deps'[d][k].Some? ==> Listed(adj', deps'[d][k].value, (d, k))
  {
    var srcRow := adj[src][idx := Some(SlotList(adj[src][idx]) + [(dst, kwd)])];
    var dstRow := deps[dst][kwd := Some((src, idx))];
    var adj': Adjacency, deps': ArgDeps := adj[src := srcRow], deps[dst := dstRow];
    forall d, k | d in deps' && k in deps'[d] && deps'[d][k].Some?
      ensures Listed(adj', deps'[d][k].value, (d, k))
    {
      if d != dst || k != kwd {
        assert deps'[d][k] == deps[d][k];
        ListedAfterFeed(adj, src, idx, dst, kwd, deps[d][k].value, (d, k));
      }
    }
  }

  /** Appending to one slot keeps every listed edge listed. */
  lemma ListedAfterFeed(adj: Adjacency, src: Vertex, idx: nat, dst: Vertex, kwd: string, dep: Dep, e: Edge)
    requires src in adj && idx < |adj[src]| && Listed(adj, dep, e)
    ensures Listed(FedAdjacency(adj, src, idx, dst, kwd), dep, e)
  {
    var adj' := FedAdjacency(adj, src, idx, dst, kwd);
    if dep == (src, idx) {
      assert SlotList(adj'[src][idx]) == SlotList(adj[src][idx]) + [(dst, kwd)];
    } else {
      assert adj'[dep.0][dep.1] == adj[dep.0][dep.1];
    }
  }

  lemma FeedKeepsBound(vs: set<Vertex>, adj: Adjacency, deps: ArgDeps,
                       src: Vertex, idx: nat, dst: Vertex, kwd: string)
    requires Coherent(vs, adj, deps)
    requires src in vs && dst in vs && idx < src.Arity() && kwd in dst.Keywords()
    requires !IsBound(deps, dst, kwd)
    ensures var adj', deps' := FedAdjacency(adj, src, idx, dst, kwd), FedArgDeps(deps, src, idx, dst, kwd);
      forall p, i, e :: p in adj' && 0 <= i < |adj'[p]| && e in SlotList(adj'[p][i]) ==> BoundTo(deps', e, (p, i))
  {
    var srcRow := adj[src][idx := Some(SlotList(adj[src][idx]) + [(dst, kwd)])];
    var dstRow := deps[dst][kwd := Some((src, idx))];
    var adj': Adjacency, deps': ArgDeps := adj[src := srcRow], deps[dst := dstRow];
    forall p, i, e | p in adj' && 0 <= i < |adj'[p]| && e in SlotList(adj'[p][i])
      ensures BoundTo(deps', e, (p, i))
    {
      if p != src || i != idx || e != (dst, kwd) {
        assert e in SlotList(adj[p][i]);
        assert BoundTo(deps, e, (p, i));
      }
    }
  }

  /**
   * Feeding a keyword that is already bound to another slot rebinds it but
   * leaves the keyword listed in the old slot, so the tables disagree.
   */
  lemma RefeedLeavesStaleEdge(vs: set<Vertex>, adj: Adjacency, deps: ArgDeps,
                              src: Vertex, idx: nat, dst: Vertex, kwd: string)
    requires Coherent(vs, adj, deps)
    requires src in vs && dst in vs && idx < src.Arity() && kwd in dst.Keywords()
    requires IsBound(deps, dst, kwd) && deps[dst][kwd].value != (src, idx)
    ensures Listed(FedAdjacency(adj, src, idx, dst, kwd), deps[dst][kwd].value, (dst, kwd))
    ensures FedArgDeps(deps, src, idx, dst, kwd)[dst][kwd] == Some((src, idx))
    ensures !Coherent(vs, FedAdjacency(adj, src, idx, dst, kwd), FedArgDeps(deps, src, idx, dst, kwd))
  {
    var (p, i) := deps[dst][kwd].value;
    var adj' := FedAdjacency(adj, src, idx, dst, kwd);
    assert Listed(adj, (p, i), (dst, kwd));
    assert adj'[p][i] == adj[p][i];
    assert !BoundTo(FedArgDeps(deps, src, idx, dst, kwd), (dst, kwd), (p, i));
  }
}

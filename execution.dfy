/**
 * The two inner loops of `FuncGraph.__call__`: collecting the keyword
 * arguments of one vertex, and delivering its outputs along its outgoing
 * edges into the table `intermediates`. Each is proved against the
 * reference evaluator of module Semantics.
 */
module Execution {
  import opened Wrappers
  import opened Vertices
  import opened GraphSpec
  import opened Semantics

  /** `intermediates`: (vertex, kwd) -> the value delivered to that keyword. */
  type Intermediates = map<Edge, Value>

  /**
   * Keyword `k` of `v` holds a delivered value exactly when it is bound, and
   * that value is the one the reference evaluator reads for it.
   */
  ghost predicate AgreesAt(deps: ArgDeps, argMap: ArgMap, env: Env, inter: Intermediates, v: Vertex, k: string, fuel: nat)
    requires DepsInRange(deps)
  {
    ((v, k) in inter <==> IsBound(deps, v, k))
    && ((v, k) in inter ==> Input(deps, argMap, env, v, k, fuel) == Ok(Some(inter[(v, k)])))
  }

  ghost predicate Agrees(deps: ArgDeps, argMap: ArgMap, env: Env, inter: Intermediates, v: Vertex, fuel: nat)
    requires DepsInRange(deps)
  {
    forall j :: 0 <= j < |v.Params()| ==> AgreesAt(deps, argMap, env, inter, v, v.Params()[j].kwd, fuel)
  }

  /** Once the arguments of a prefix of `ps` fail, the arguments of all of `ps` fail the same way. */
  lemma {:induction false} InputsErrorPersists(deps: ArgDeps, argMap: ArgMap, env: Env, v: Vertex, ps: seq<Param>,
                                               n: nat, fuel: nat)
    requires DepsInRange(deps)
    requires n <= |ps| && Inputs(deps, argMap, env, v, ps[..n], fuel).Err?
    ensures Inputs(deps, argMap, env, v, ps, fuel) == Inputs(deps, argMap, env, v, ps[..n], fuel)
    decreases |ps| - n
  {
    if n < |ps| {
      assert ps[..n + 1][..n] == ps[..n];
      InputsErrorPersists(deps, argMap, env, v, ps, n + 1, fuel);
    } else {
      assert ps[..n] == ps;
    }
  }

  /**
   * `current_kwargs` of `vertex`: for each keyword in order, its delivered
   * value, else the caller's argument named by `arg_map` (a key error when
   * the caller gave none), else nothing. When the delivered values agree
   * with the reference evaluator, so do the collected arguments.
   */
  method GatherInputs(v: Vertex, inter: Intermediates, argMap: ArgMap, env: Env, ghost deps: ArgDeps, ghost fuel: nat)
    returns (kw: Result<map<string, Value>, Error>)
    requires DepsInRange(deps)
    ensures kw.Ok? ==> kw.value.Keys <= KeywordsOf(v.Params())
    ensures kw.Err? ==> kw.error.MissingArgument?
    ensures Agrees(deps, argMap, env, inter, v, fuel) ==> kw == Inputs(deps, argMap, env, v, v.Params(), fuel)
  {
    var ps := v.Params();
    var current: map<string, Value> := map[];
    assert ps[..0] == [];
    for j := 0 to |ps|
      invariant current.Keys <= KeywordsOf(ps[..j])
      invariant Agrees(deps, argMap, env, inter, v, fuel) ==> Inputs(deps, argMap, env, v, ps[..j], fuel) == Ok(current)
    {
      var kwd := ps[j].kwd;
      assert ps[..j + 1][..j] == ps[..j];
      assert ps[..j + 1][j] == ps[j];
      if (v, kwd) in inter {
        current := current[kwd := inter[(v, kwd)]];
      } else if (v, kwd) in argMap {
        var name := argMap[(v, kwd)];
        if name !in env {
          if Agrees(deps, argMap, env, inter, v, fuel) {
            assert AgreesAt(deps, argMap, env, inter, v, kwd, fuel);
            InputsErrorPersists(deps, argMap, env, v, ps, j + 1, fuel);
          }
          return Err(MissingArgument(name));
        }
        current := current[kwd := env[name]];
      }
      if Agrees(deps, argMap, env, inter, v, fuel) {
        assert AgreesAt(deps, argMap, env, inter, v, kwd, fuel);
      }
    }
    assert ps[..|ps|] == ps;
    return Ok(current);
  }

  /**
   * One vertex of the run: collect its keyword arguments and call it. When
   * the vertices before it in a topological order ran and delivered their
   * outputs, the result is the reference one.
   */
  method RunVertex(v: Vertex, inter: Intermediates, argMap: ArgMap, env: Env,
                   ghost vs: set<Vertex>, ghost deps: ArgDeps, ghost ord: seq<Vertex>, ghost i: nat, ghost ready: bool)
    returns (result: Result<seq<Value>, Error>)
    requires DepsInRange(deps) && i < |ord| && ord[i] == v
    requires ready ==> deps.Keys == vs && IsTopoOrder(vs, deps, ord)
    requires ready ==> Ran(deps, argMap, env, ord, i, inter)
    ensures result.Ok? ==> |result.value| == v.Arity()
    ensures result.Err? ==> result.error.MissingArgument? || CallError(result.error)
    ensures ready ==> result == Eval(deps, argMap, env, v, |ord|)
  {
    if ready {
      AgreesFromDelivered(vs, deps, argMap, env, ord, i, inter);
    }
    var kw := GatherInputs(v, inter, argMap, env, deps, |ord|);
    if kw.Err? {
      return Err(kw.error);
    }
    result := Invoke(v, kw.value);
  }

  /**
   * The reference outcome of running `ord` up to its `s`-th vertex: success
   * exactly when each of those vertices evaluates, with the `s`-th vertex's
   * outputs at `outIdx`; otherwise the error of the first one that fails.
   */
  ghost predicate Reference(deps: ArgDeps, argMap: ArgMap, env: Env, ord: seq<Vertex>, s: nat, outIdx: seq<nat>,
                            r: Result<seq<Value>, Error>)
    requires DepsInRange(deps) && s < |ord|
    requires forall j :: 0 <= j < |outIdx| ==> outIdx[j] < ord[s].Arity()
  {
    && (r.Ok? <==> forall j :: 0 <= j <= s ==> Eval(deps, argMap, env, ord[j], |ord|).Ok?)
    && (r.Ok? ==> r.value == Select(Eval(deps, argMap, env, ord[s], |ord|).value, outIdx))
    && (r.Err? ==> exists j :: 0 <= j <= s && Eval(deps, argMap, env, ord[j], |ord|) == Err(r.error)
                     && forall m :: 0 <= m < j ==> Eval(deps, argMap, env, ord[m], |ord|).Ok?)
  }

  lemma ReferenceFails(deps: ArgDeps, argMap: ArgMap, env: Env, ord: seq<Vertex>, s: nat, outIdx: seq<nat>, i: nat,
                        inter: Intermediates, e: Error)
    requires DepsInRange(deps) && i <= s < |ord|
    requires forall j :: 0 <= j < |outIdx| ==> outIdx[j] < ord[s].Arity()
    requires Ran(deps, argMap, env, ord, i, inter)
    requires Eval(deps, argMap, env, ord[i], |ord|) == Err(e)
    ensures Reference(deps, argMap, env, ord, s, outIdx, Err(e))
  {
  }

  lemma ReferenceSucceeds(deps: ArgDeps, argMap: ArgMap, env: Env, ord: seq<Vertex>, s: nat, outIdx: seq<nat>,
                          inter: Intermediates, outs: seq<Value>)
    requires DepsInRange(deps) && s < |ord|
    requires forall j :: 0 <= j < |outIdx| ==> outIdx[j] < ord[s].Arity()
    requires Ran(deps, argMap, env, ord, s, inter)
    requires Eval(deps, argMap, env, ord[s], |ord|) == Ok(outs)
    ensures Reference(deps, argMap, env, ord, s, outIdx, Ok(Select(outs, outIdx)))
  {
  }

  /** The last of the first `n` slots that lists edge `e`. */
  function LastSlot(slots: seq<Slot>, e: Edge, n: nat): (r: Option<nat>)
    requires n <= |slots|
    ensures r.Some? ==> r.value < n && e in SlotList(slots[r.value])
    ensures r.Some? ==> forall m :: r.value < m < n ==> e !in SlotList(slots[m])
    ensures r.None? ==> forall m :: 0 <= m < n ==> e !in SlotList(slots[m])
  {
    if n == 0 then None
    else if e in SlotList(slots[n - 1]) then Some(n - 1)
    else LastSlot(slots, e, n - 1)
  }

  /**
   * The delivery loop of `__call__`: every edge listed in slot `idx` of the
   * vertex that just ran receives its output `outs[idx]`; an edge listed in
   * several slots keeps the value of the last one.
   */
  method Deliver(slots: seq<Slot>, outs: seq<Value>, inter: Intermediates) returns (inter': Intermediates)
    requires |outs| == |slots|
    requires forall i :: 0 <= i < |slots| ==> slots[i].Some?
    ensures forall e :: e in inter' <==> e in inter || LastSlot(slots, e, |slots|).Some?
    ensures forall e :: e in inter' ==>
      inter'[e] == (if LastSlot(slots, e, |slots|).Some? then outs[LastSlot(slots, e, |slots|).value] else inter[e])
  {
    inter' := inter;
    for idx := 0 to |slots|
      invariant forall e :: e in inter' <==> e in inter || LastSlot(slots, e, idx).Some?
      invariant forall e :: e in inter' ==>
        inter'[e] == (if LastSlot(slots, e, idx).Some? then outs[LastSlot(slots, e, idx).value] else inter[e])
    {
      var edges := slots[idx].value;
      for m := 0 to |edges|
        invariant forall e :: e in inter' <==> e in inter || LastSlot(slots, e, idx).Some? || e in edges[..m]
        invariant forall e :: e in inter' ==>
          inter'[e] == (if e in edges[..m] then outs[idx]
                        else if LastSlot(slots, e, idx).Some? then outs[LastSlot(slots, e, idx).value] else inter[e])
      {
        assert edges[..m + 1] == edges[..m] + [edges[m]];
        inter' := inter'[edges[m] := outs[idx]];
      }
      assert edges[..|edges|] == edges;
    }
  }

  /** Edge `e` holds output `i` of its producer `p`, which has run. */
  ghost predicate DeliveredBy(deps: ArgDeps, argMap: ArgMap, env: Env, fuel: nat, inter: Intermediates, e: Edge,
                              done: set<Vertex>)
    requires DepsInRange(deps) && e in inter
  {
    IsBound(deps, e.0, e.1)
    && var (p, i) := deps[e.0][e.1].value;
    p in done && Eval(deps, argMap, env, p, fuel).Ok? && inter[e] == Eval(deps, argMap, env, p, fuel).value[i]
  }

  /**
   * `intermediates` after the vertices `done` ran: it holds exactly the
   * bound keywords whose producer ran, each with that producer's output.
   */
  ghost predicate Delivered(deps: ArgDeps, argMap: ArgMap, env: Env, fuel: nat, inter: Intermediates, done: set<Vertex>)
    requires DepsInRange(deps)
  {
    (forall e :: e in inter ==> DeliveredBy(deps, argMap, env, fuel, inter, e, done))
    && (forall u, k :: u in deps && k in deps[u] && deps[u][k].Some? && deps[u][k].value.0 in done ==> (u, k) in inter)
  }

  /**
   * The part of coherence that concerns the slots of `u`: each edge listed in
   * slot `i` of `u` is bound to that slot, and each keyword bound to a slot
   * of `u` is listed in it.
   */
  ghost predicate RowCoherent(adj: Adjacency, deps: ArgDeps, u: Vertex) {
    && u in adj
    && (forall i, e :: 0 <= i < |adj[u]| && e in SlotList(adj[u][i]) ==> BoundTo(deps, e, (u, i)))
    && (forall d, k :: d in deps && k in deps[d] && deps[d][k].Some? && deps[d][k].value.0 == u
          ==> Listed(adj, deps[d][k].value, (d, k)))
  }

  ghost predicate RowsCoherent(vs: set<Vertex>, adj: Adjacency, deps: ArgDeps) {
    forall u :: u in vs ==> RowCoherent(adj, deps, u)
  }

  lemma CoherentRows(vs: set<Vertex>, adj: Adjacency, deps: ArgDeps)
    requires Coherent(vs, adj, deps)
    ensures RowsCoherent(vs, adj, deps)
  {
  }

  /** The first `i` vertices of `ord` evaluated and delivered their outputs into `inter`. */
  ghost predicate Ran(deps: ArgDeps, argMap: ArgMap, env: Env, ord: seq<Vertex>, i: nat, inter: Intermediates)
    requires DepsInRange(deps) && i <= |ord|
  {
    (forall j :: 0 <= j < i ==> Eval(deps, argMap, env, ord[j], |ord|).Ok?)
    && Delivered(deps, argMap, env, |ord|, inter, Elems(ord[..i]))
  }

  /** Running and delivering the `i`-th vertex extends what has run by one. */
  lemma RanStep(adj: Adjacency, deps: ArgDeps, argMap: ArgMap, env: Env, ord: seq<Vertex>, i: nat,
                inter: Intermediates, inter': Intermediates)
    requires DepsInRange(deps) && i < |ord| && RowCoherent(adj, deps, ord[i])
    requires Ran(deps, argMap, env, ord, i, inter)
    requires Eval(deps, argMap, env, ord[i], |ord|).Ok?
    requires forall e :: e in inter' <==> e in inter || LastSlot(adj[ord[i]], e, |adj[ord[i]]|).Some?
    requires forall e :: e in inter' ==>
      inter'[e] == (if LastSlot(adj[ord[i]], e, |adj[ord[i]]|).Some?
                    then Eval(deps, argMap, env, ord[i], |ord|).value[LastSlot(adj[ord[i]], e, |adj[ord[i]]|).value]
                    else inter[e])
    ensures Ran(deps, argMap, env, ord, i + 1, inter')
  {
    DeliverKeepsDelivered(adj, deps, argMap, env, |ord|, inter, inter', Elems(ord[..i]), ord[i]);
    assert Elems(ord[..i + 1]) == Elems(ord[..i]) + {ord[i]};
  }

  /**
   * Along a topological order, when the vertices before position `i` ran and
   * delivered their outputs, the keywords of the `i`-th vertex agree with the
   * reference evaluator.
   */
  lemma AgreesFromDelivered(vs: set<Vertex>, deps: ArgDeps, argMap: ArgMap, env: Env, ord: seq<Vertex>, i: nat,
                            inter: Intermediates)
    requires deps.Keys == vs && DepsInRange(deps) && IsTopoOrder(vs, deps, ord) && i < |ord|
    requires Delivered(deps, argMap, env, |ord|, inter, Elems(ord[..i]))
    ensures Agrees(deps, argMap, env, inter, ord[i], |ord|)
    ensures Inputs(deps, argMap, env, ord[i], ord[i].Params(), |ord|) == Inputs(deps, argMap, env, ord[i], ord[i].Params(), |ord| - 1)
  {
    var u := ord[i];
    forall j | 0 <= j < |u.Params()|
      ensures AgreesAt(deps, argMap, env, inter, u, u.Params()[j].kwd, |ord|)
    {
      AgreesAtKeyword(deps, argMap, env, |ord|, inter, Elems(ord[..i]), u, u.Params()[j].kwd);
    }
    InputsSettled(vs, deps, argMap, env, ord, i, u.Params(), |ord|, |ord| - 1);
  }

  /** A keyword agrees with the reference evaluator once its producer, if any, has delivered. */
  lemma AgreesAtKeyword(deps: ArgDeps, argMap: ArgMap, env: Env, fuel: nat, inter: Intermediates, done: set<Vertex>,
                        u: Vertex, k: string)
    requires DepsInRange(deps) && Delivered(deps, argMap, env, fuel, inter, done)
    requires IsBound(deps, u, k) ==> deps[u][k].value.0 in done
    ensures AgreesAt(deps, argMap, env, inter, u, k, fuel)
  {
    if IsBound(deps, u, k) || (u, k) in inter {
      assert (u, k) in inter;
      assert DeliveredBy(deps, argMap, env, fuel, inter, (u, k), done);
    }
  }

  /**
   * In a coherent graph, delivering the outputs of `u` along its slots keeps
   * `intermediates` as it should be, now with `u` among the vertices that ran.
   */
  lemma DeliverKeepsDelivered(adj: Adjacency, deps: ArgDeps, argMap: ArgMap, env: Env, fuel: nat,
                              inter: Intermediates, inter': Intermediates, done: set<Vertex>, u: Vertex)
    requires RowCoherent(adj, deps, u) && DepsInRange(deps)
    requires Eval(deps, argMap, env, u, fuel).Ok?
    requires Delivered(deps, argMap, env, fuel, inter, done)
    requires forall e :: e in inter' <==> e in inter || LastSlot(adj[u], e, |adj[u]|).Some?
    requires forall e :: e in inter' ==>
      inter'[e] == (if LastSlot(adj[u], e, |adj[u]|).Some? then Eval(deps, argMap, env, u, fuel).value[LastSlot(adj[u], e, |adj[u]|).value]
                    else inter[e])
    ensures Delivered(deps, argMap, env, fuel, inter', done + {u})
  {
    var slots := adj[u];
    forall e | e in inter'
      ensures DeliveredBy(deps, argMap, env, fuel, inter', e, done + {u})
    {
      var last := LastSlot(slots, e, |slots|);
      if last.Some? {
        assert BoundTo(deps, e, (u, last.value));
      } else {
        assert DeliveredBy(deps, argMap, env, fuel, inter, e, done);
      }
    }
    forall w, k | w in deps && k in deps[w] && deps[w][k].Some? && deps[w][k].value.0 in done + {u}
      ensures (w, k) in inter'
    {
      var (p, idx) := deps[w][k].value;
      if p == u {
        assert Listed(adj, (u, idx), (w, k));
      }
    }
  }

  /**
   * The main loop of `__call__`: runs the vertices of `order` one by one,
   * feeding each the values delivered by earlier ones and the caller's
   * arguments, until it reaches the output vertex `sink`, and returns the
   * outputs of its open slots `outIdx`. When the tables agree (see
   * `RowsCoherent`) the outcome is the reference one.
   */
  method RunOrder(order: seq<Vertex>, sink: Vertex, adjacency: Adjacency, argMap: ArgMap, env: Env, outIdx: seq<nat>,
                  ghost vs: set<Vertex>, ghost deps: ArgDeps, ghost s: nat)
    returns (r: Result<seq<Value>, Error>)
    requires DepsInRange(deps) && deps.Keys == vs && IsTopoOrder(vs, deps, order)
    requires s < |order| && order[s] == sink
    requires forall u :: u in vs ==> u in adjacency && |adjacency[u]| == u.Arity() && (u != sink ==> !IsOpen(adjacency, u))
    requires forall j :: 0 <= j < |outIdx| ==> outIdx[j] < sink.Arity()
    ensures r.Ok? ==> |r.value| == |outIdx|
    ensures r.Err? ==> r.error.MissingArgument? || CallError(r.error)
    ensures RowsCoherent(vs, adjacency, deps) ==> Reference(deps, argMap, env, order, s, outIdx, r)
  {
    ghost var coh := RowsCoherent(vs, adjacency, deps);
    var intermediates: Intermediates := map[];
    var i := 0;
    assert Elems(order[..0]) == {};
    while true
      invariant i <= s
      invariant coh ==> Ran(deps, argMap, env, order, i, intermediates)
      decreases s - i
    {
      var vertex := order[i];
      assert vertex in vs by { assert vertex in Elems(order); }
      var result := RunVertex(vertex, intermediates, argMap, env, vs, deps, order, i, coh);
      if result.Err? {
        if coh {
          ReferenceFails(deps, argMap, env, order, s, outIdx, i, intermediates, result.error);
        }
        return Err(result.error);
      }
      if vertex == sink {
        if coh {
          ReferenceSucceeds(deps, argMap, env, order, s, outIdx, intermediates, result.value);
        }
        return Ok(Select(result.value, outIdx));
      }
      ghost var before := intermediates;
      intermediates := Deliver(adjacency[vertex], result.value, intermediates);
      if coh {
        assert RowCoherent(adjacency, deps, vertex);
        RanStep(adjacency, deps, argMap, env, order, i, before, intermediates);
      }
      i := i + 1;
    }
  }
}

/**
 * A reference meaning for running a FuncGraph, independent of any
 * iteration order: the outputs of a vertex are what it yields when called
 * with the outputs of its producers and the caller's arguments for its
 * unbound keywords. The recursion carries fuel; along a topological order
 * the fuel needed by the j-th vertex is j + 1, and more fuel changes
 * nothing.
 */
module Semantics {
  import opened Wrappers
  import opened Vertices
  import opened GraphSpec

  /** `arg_map`: (vertex, kwd) -> argument name of an unbound keyword. */
  type ArgMap = map<Edge, string>
  /** The caller's keyword arguments, after positional ones are bound. */
  type Env = map<string, Value>

  /** Every bound keyword names a slot its producer has. */
  predicate DepsInRange(deps: ArgDeps) {
    forall v :: v in deps ==> ProducersOk(deps.Keys, deps[v])
  }

  lemma WellFormedDepsInRange(vs: set<Vertex>, adj: Adjacency, deps: ArgDeps)
    requires WellFormed(vs, adj, deps)
    ensures DepsInRange(deps)
  {
    forall v | v in deps
      ensures ProducersOk(deps.Keys, deps[v])
    {
      assert RowsOk(vs, v, adj[v], deps[v]);
    }
  }

  /** The outputs of `u`, or the error calling it (or one of its producers) raises. */
  function Eval(deps: ArgDeps, argMap: ArgMap, env: Env, u: Vertex, fuel: nat): (r: Result<seq<Value>, Error>)
    requires DepsInRange(deps)
    ensures r.Ok? ==> |r.value| == u.Arity()
    decreases fuel, 0
  {
    if fuel == 0 then Err(FuelExhausted)
    else
      var kw :- Inputs(deps, argMap, env, u, u.Params(), fuel - 1);
      Invoke(u, kw)
  }

  /** The keyword arguments of `u` for the parameters `ps`, first error in parameter order. */
  function Inputs(deps: ArgDeps, argMap: ArgMap, env: Env, u: Vertex, ps: seq<Param>, fuel: nat)
    : Result<map<string, Value>, Error>
    requires DepsInRange(deps)
    decreases fuel, 2, |ps|
  {
    if ps == [] then Ok(map[])
    else
      var kw :- Inputs(deps, argMap, env, u, ps[..|ps| - 1], fuel);
      var k := ps[|ps| - 1].kwd;
      var x :- Input(deps, argMap, env, u, k, fuel);
      Ok(if x.Some? then kw[k := x.value] else kw)
  }

  /**
   * The value of keyword `k` of `u`: the producer's output when bound, else
   * the caller's argument named by `arg_map` (missing: a key error), else nothing.
   */
  function Input(deps: ArgDeps, argMap: ArgMap, env: Env, u: Vertex, k: string, fuel: nat)
    : Result<Option<Value>, Error>
    requires DepsInRange(deps)
    decreases fuel, 1
  {
    if IsBound(deps, u, k) then
      var (p, i) := deps[u][k].value;
      var outs :- Eval(deps, argMap, env, p, fuel);
      Ok(Some(outs[i]))
    else if (u, k) in argMap then
      var name := argMap[(u, k)];
      if name in env then Ok(Some(env[name])) else Err(MissingArgument(name))
    else Ok(None)
  }

  /** `tuple(result[i] for i in out_idx)`. */
  function Select<T>(outs: seq<T>, idxs: seq<nat>): (r: seq<T>)
    requires forall j :: 0 <= j < |idxs| ==> idxs[j] < |outs|
    ensures |r| == |idxs| && forall j :: 0 <= j < |idxs| ==> r[j] == outs[idxs[j]]
  {
    seq(|idxs|, j requires 0 <= j < |idxs| => outs[idxs[j]])
  }

  /**
   * Along a topological order, the j-th vertex evaluates with fuel j + 1 to
   * the same result as with any larger fuel, and never runs out of fuel.
   */
  lemma {:induction false} EvalStable(vs: set<Vertex>, deps: ArgDeps, argMap: ArgMap, env: Env,
                                      ord: seq<Vertex>, j: nat, f: nat)
    requires deps.Keys == vs && DepsInRange(deps) && IsTopoOrder(vs, deps, ord)
    requires j < |ord| && f >= j + 1
    ensures Eval(deps, argMap, env, ord[j], f) == Eval(deps, argMap, env, ord[j], j + 1)
    ensures Eval(deps, argMap, env, ord[j], f) != Err(FuelExhausted)
    decreases j, 1, 0
  {
    var u := ord[j];
    InputsStable(vs, deps, argMap, env, ord, j, u.Params(), f - 1);
  }

  /** Any two fuels that suffice give the j-th vertex the same keyword arguments. */
  lemma InputsSettled(vs: set<Vertex>, deps: ArgDeps, argMap: ArgMap, env: Env, ord: seq<Vertex>, j: nat,
                      ps: seq<Param>, f: nat, g: nat)
    requires deps.Keys == vs && DepsInRange(deps) && IsTopoOrder(vs, deps, ord)
    requires j < |ord| && f >= j && g >= j
    ensures Inputs(deps, argMap, env, ord[j], ps, f) == Inputs(deps, argMap, env, ord[j], ps, g)
  {
    InputsStable(vs, deps, argMap, env, ord, j, ps, f);
    InputsStable(vs, deps, argMap, env, ord, j, ps, g);
  }

  lemma {:induction false} InputsStable(vs: set<Vertex>, deps: ArgDeps, argMap: ArgMap, env: Env,
                                        ord: seq<Vertex>, j: nat, ps: seq<Param>, f: nat)
    requires deps.Keys == vs && DepsInRange(deps) && IsTopoOrder(vs, deps, ord)
    requires j < |ord| && f >= j
    ensures Inputs(deps, argMap, env, ord[j], ps, f) == Inputs(deps, argMap, env, ord[j], ps, j)
    ensures Inputs(deps, argMap, env, ord[j], ps, f) != Err(FuelExhausted)
    decreases j, 0, |ps|
  {
    if ps != [] {
      InputsStable(vs, deps, argMap, env, ord, j, ps[..|ps| - 1], f);
      var u, k := ord[j], ps[|ps| - 1].kwd;
      if IsBound(deps, u, k) {
        var p := deps[u][k].value.0;
        assert DependsOn(deps, u, p);
        ProducerFirst(vs, deps, ord, j, p);
        var jp := IndexIn(ord, p);
        EvalStable(vs, deps, argMap, env, ord, jp, f);
        EvalStable(vs, deps, argMap, env, ord, jp, j);
      }
    }
  }
}

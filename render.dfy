/**
 * `FuncGraph.straight_line()`: the graph printed as a straight-line
 * program. An `>INPUT` line lists the named inputs; each vertex before the
 * output vertex, in topological order, gets a line assigning its outputs to
 * fresh variables `!v0`, `!v1`, ...; the output vertex gets a `>RETURN` line
 * ending with the list of its open slots. The text is first described in
 * closed form, by the position of each vertex in the order, and the loop
 * of the source is then proved to produce it.
 */
module Render {
  import opened Wrappers
  import opened Vertices
  import opened GraphSpec
  import opened Semantics
  import opened Text
  import opened Execution
  import FuncPrimitives

  /** The variable minted by the `n`-th increment of `counter`. */
  function VarName(n: nat): string {
    "!v" + NatToString(n)
  }

  /** Different counter values give different variables. */
  lemma VarNameInjective(m: nat, n: nat)
    requires m != n
    ensures VarName(m) != VarName(n)
  {
    if VarName(m) == VarName(n) {
      assert VarName(m)[2..] == NatToString(m);
      assert VarName(n)[2..] == NatToString(n);
      NatToStringInjective(m, n);
    }
  }

  /** The number of variables minted for the first `j` vertices of `ord`: the sum of their arities. */
  function Base(ord: seq<Vertex>, j: nat): nat
    requires j <= |ord|
  {
    if j == 0 then 0 else Base(ord, j - 1) + ord[j - 1].Arity()
  }

  /**
   * The text passed for keyword `k` of `u`: the variable holding its
   * producer's output when bound, else `$` and its input name, else nothing.
   */
  function ArgText(deps: ArgDeps, argMap: ArgMap, ord: seq<Vertex>, u: Vertex, k: string): Option<string> {
    if IsBound(deps, u, k) then
      var (p, i) := deps[u][k].value;
      if p in ord then Some(VarName(Base(ord, IndexIn(ord, p)) + i)) else None
    else if (u, k) in argMap then Some("$" + argMap[(u, k)])
    else None
  }

  /** One entry of a call: `kwd: type = text`. */
  function Item(p: Param, text: string): string {
    p.kwd + ": " + TypeText(p.ty) + " = " + text
  }

  /** The entries of a call of `u` for the parameters `ps` that have a text. */
  function Items(deps: ArgDeps, argMap: ArgMap, ord: seq<Vertex>, u: Vertex, ps: seq<Param>): seq<string> {
    if ps == [] then []
    else
      var p := ps[|ps| - 1];
      var t := ArgText(deps, argMap, ord, u, p.kwd);
      Items(deps, argMap, ord, u, ps[..|ps| - 1]) + (if t.Some? then [Item(p, t.value)] else [])
  }

  /** A call `name(entries)`. */
  function CallText(name: string, computation: string): string {
    name + "(" + computation + ")"
  }

  /** An assignment line `!v3, !v4 = name(entries)`. */
  function LineText(names: seq<string>, call: string): string {
    Join(", ", names) + " = " + call + "\n"
  }

  /** The last line, `>RETURN name(entries)[0, 2]`. */
  function ReturnText(call: string, outIdx: seq<nat>): string {
    ">RETURN " + call + ReprList(outIdx)
  }

  function Call(deps: ArgDeps, argMap: ArgMap, ord: seq<Vertex>, u: Vertex): string {
    CallText(u.name, Join(", ", Items(deps, argMap, ord, u, u.Params())))
  }

  /** The `a` variables minted from number `n` on. */
  function Minted(n: nat, a: nat): (r: seq<string>)
    ensures |r| == a && forall i :: 0 <= i < a ==> r[i] == VarName(n + i)
  {
    if a == 0 then [] else Minted(n, a - 1) + [VarName(n + a - 1)]
  }

  /** The line of the `j`-th vertex: its outputs assigned to the next variables. */
  function Line(deps: ArgDeps, argMap: ArgMap, ord: seq<Vertex>, j: nat): string
    requires j < |ord|
  {
    LineText(Minted(Base(ord, j), ord[j].Arity()), Call(deps, argMap, ord, ord[j]))
  }

  /** The lines of the first `j` vertices. */
  function Lines(deps: ArgDeps, argMap: ArgMap, ord: seq<Vertex>, j: nat): string
    requires j <= |ord|
  {
    if j == 0 then "" else Lines(deps, argMap, ord, j - 1) + Line(deps, argMap, ord, j - 1)
  }

  /** `repr` of a list of indices, such as `[0, 2]`. */
  function ReprList(xs: seq<nat>): string {
    "[" + Join(", ", seq(|xs|, i requires 0 <= i < |xs| => NatToString(xs[i]))) + "]"
  }

  /** The `>RETURN` line of the output vertex, the `s`-th of `ord`. */
  function ReturnLine(deps: ArgDeps, argMap: ArgMap, ord: seq<Vertex>, s: nat, outIdx: seq<nat>): string
    requires s < |ord|
  {
    ReturnText(Call(deps, argMap, ord, ord[s]), outIdx)
  }

  /** The `>INPUT` line: each input as `$name: type`, in `inp_type` order. */
  function Header(inpType: FuncPrimitives.Dict<string, Type>): string {
    ">INPUT (" + Join(", ", seq(|inpType|, i requires 0 <= i < |inpType| => "$" + inpType[i].0 + ": " + TypeText(inpType[i].1)))
    + ")\n"
  }

  /** The whole program for the order `ord` with the output vertex at position `s`. */
  function Program(deps: ArgDeps, argMap: ArgMap, inpType: FuncPrimitives.Dict<string, Type>, ord: seq<Vertex>, s: nat,
                   outIdx: seq<nat>): string
    requires s < |ord|
  {
    Header(inpType) + Lines(deps, argMap, ord, s) + ReturnLine(deps, argMap, ord, s, outIdx)
  }

  /** Each vertex's variables come after those of the vertices before it. */
  lemma {:induction false} BaseMonotone(ord: seq<Vertex>, i: nat, j: nat)
    requires i <= j <= |ord|
    ensures Base(ord, i) <= Base(ord, j)
    decreases j - i
  {
    if i < j {
      BaseMonotone(ord, i, j - 1);
    }
  }

  /**
   * No counter value is minted twice: output `a` of the `i`-th vertex and
   * output `b` of the `j`-th vertex get different numbers, hence (by
   * `VarNameInjective`) different variables.
   */
  lemma NumbersDistinct(ord: seq<Vertex>, i: nat, a: nat, j: nat, b: nat)
    requires i < |ord| && j < |ord| && a < ord[i].Arity() && b < ord[j].Arity()
    requires (i, a) != (j, b)
    ensures Base(ord, i) + a != Base(ord, j) + b
  {
    if i < j {
      BaseMonotone(ord, i + 1, j);
    } else if j < i {
      BaseMonotone(ord, j + 1, i);
    }
  }

  /**
   * Along a topological order every variable a vertex reads was minted on an
   * earlier line: its number is below the count minted before the vertex.
   */
  lemma ReadAfterMinted(vs: set<Vertex>, deps: ArgDeps, argMap: ArgMap, ord: seq<Vertex>, j: nat, k: string)
    requires DepsInRange(deps) && IsTopoOrder(vs, deps, ord) && j < |ord| && IsBound(deps, ord[j], k)
    ensures deps[ord[j]][k].value.0 in ord
    ensures var n := Base(ord, IndexIn(ord, deps[ord[j]][k].value.0)) + deps[ord[j]][k].value.1;
      n < Base(ord, j) && ArgText(deps, argMap, ord, ord[j], k) == Some(VarName(n))
  {
    var (p, i) := deps[ord[j]][k].value;
    assert DependsOn(deps, ord[j], p);
    ProducerFirst(vs, deps, ord, j, p);
    var jp := IndexIn(ord, p);
    assert ord[jp] == p;
    BaseMonotone(ord, jp + 1, j);
  }

  /** `intermediates` of `straight_line`: (vertex, kwd) -> the variable delivered to it. */
  type Names = map<Edge, string>

  /**
   * Keyword `k` of `v` holds a variable exactly when it is bound, and that
   * variable is the one the closed form passes.
   */
  ghost predicate TextAgreesAt(deps: ArgDeps, argMap: ArgMap, ord: seq<Vertex>, inter: Names, v: Vertex, k: string) {
    ((v, k) in inter <==> IsBound(deps, v, k))
    && ((v, k) in inter ==> ArgText(deps, argMap, ord, v, k) == Some(inter[(v, k)]))
  }

  ghost predicate TextAgrees(deps: ArgDeps, argMap: ArgMap, ord: seq<Vertex>, inter: Names, v: Vertex) {
    forall j :: 0 <= j < |v.Params()| ==> TextAgreesAt(deps, argMap, ord, inter, v, v.Params()[j].kwd)
  }

  /**
   * `computation` of `straight_line`: the entries `kwd: type = text` for the
   * keywords of `v` that hold a variable or name an input, in keyword order.
   */
  method GatherTexts(v: Vertex, inter: Names, argMap: ArgMap, ghost deps: ArgDeps, ghost ord: seq<Vertex>)
    returns (computation: string)
    ensures TextAgrees(deps, argMap, ord, inter, v) ==> computation == Join(", ", Items(deps, argMap, ord, v, v.Params()))
  {
    var ps := v.Params();
    var items: seq<string> := [];
    assert ps[..0] == [];
    for j := 0 to |ps|
      invariant TextAgrees(deps, argMap, ord, inter, v) ==> items == Items(deps, argMap, ord, v, ps[..j])
    {
      var kwd := ps[j].kwd;
      assert ps[..j + 1][..j] == ps[..j];
      assert ps[..j + 1][j] == ps[j];
      if (v, kwd) in inter {
        items := items + [Item(ps[j], inter[(v, kwd)])];
      } else if (v, kwd) in argMap {
        items := items + [Item(ps[j], "$" + argMap[(v, kwd)])];
      }
      if TextAgrees(deps, argMap, ord, inter, v) {
        assert TextAgreesAt(deps, argMap, ord, inter, v, kwd);
      }
    }
    assert ps[..|ps|] == ps;
    computation := Join(", ", items);
  }

  /** The delivery of one variable: every edge listed in a slot receives it. */
  method DeliverSlot(edges: seq<Edge>, name: string, inter: Names) returns (inter': Names)
    ensures forall e :: e in inter' <==> e in inter || e in edges
    ensures forall e :: e in inter' ==> inter'[e] == if e in edges then name else inter[e]
  {
    inter' := inter;
    for m := 0 to |edges|
      invariant forall e :: e in inter' <==> e in inter || e in edges[..m]
      invariant forall e :: e in inter' ==> inter'[e] == if e in edges[..m] then name else inter[e]
    {
      assert edges[..m + 1] == edges[..m] + [edges[m]];
      inter' := inter'[edges[m] := name];
    }
    assert edges[..|edges|] == edges;
  }

  /**
   * The minting loop of `straight_line`: each output slot of the vertex gets
   * the next variable, which every edge listed in the slot receives; an edge
   * listed in several slots keeps the variable of the last one.
   */
  method MintAndDeliver(slots: seq<Slot>, counter: nat, inter: Names) returns (names: seq<string>, counter': nat, inter': Names)
    requires forall i :: 0 <= i < |slots| ==> slots[i].Some?
    ensures names == Minted(counter, |slots|) && counter' == counter + |slots|
    ensures forall e :: e in inter' <==> e in inter || LastSlot(slots, e, |slots|).Some?
    ensures forall e :: e in inter' ==>
      inter'[e] == (if LastSlot(slots, e, |slots|).Some? then names[LastSlot(slots, e, |slots|).value] else inter[e])
  {
    names, counter', inter' := [], counter, inter;
    for idx := 0 to |slots|
      invariant names == Minted(counter, idx) && counter' == counter + idx
      invariant forall e :: e in inter' <==> e in inter || LastSlot(slots, e, idx).Some?
      invariant forall e :: e in inter' ==>
        inter'[e] == (if LastSlot(slots, e, idx).Some? then names[LastSlot(slots, e, idx).value] else inter[e])
    {
      names, counter', inter' := MintSlot(slots, idx, counter, names, counter', inter, inter');
    }
  }

  /** One turn of the minting loop: the next variable, delivered to the edges of slot `idx`. */
  method MintSlot(slots: seq<Slot>, idx: nat, ghost counter: nat, names: seq<string>, counter': nat, ghost inter: Names, cur: Names)
    returns (names': seq<string>, counter'': nat, next: Names)
    requires idx < |slots| && slots[idx].Some?
    requires names == Minted(counter, idx) && counter' == counter + idx
    requires forall e :: e in cur <==> e in inter || LastSlot(slots, e, idx).Some?
    requires forall e :: e in cur ==>
      cur[e] == (if LastSlot(slots, e, idx).Some? then names[LastSlot(slots, e, idx).value] else inter[e])
    ensures names' == Minted(counter, idx + 1) && counter'' == counter + idx + 1
    ensures forall e :: e in next <==> e in inter || LastSlot(slots, e, idx + 1).Some?
    ensures forall e :: e in next ==>
      next[e] == (if LastSlot(slots, e, idx + 1).Some? then names'[LastSlot(slots, e, idx + 1).value] else inter[e])
  {
    var name := VarName(counter');
    counter'' := counter' + 1;
    next := DeliverSlot(slots[idx].value, name, cur);
    MintStep(slots, idx, counter, names, name, inter, cur, next);
    names' := names + [name];
  }

  /** Minting and delivering slot `idx` extends what the first `idx` slots did. */
  lemma MintStep(slots: seq<Slot>, idx: nat, counter: nat, names: seq<string>, name: string, inter: Names, cur: Names, next: Names)
    requires idx < |slots| && slots[idx].Some?
    requires names == Minted(counter, idx) && name == VarName(counter + idx)
    requires forall e :: e in cur <==> e in inter || LastSlot(slots, e, idx).Some?
    requires forall e :: e in cur ==>
      cur[e] == (if LastSlot(slots, e, idx).Some? then names[LastSlot(slots, e, idx).value] else inter[e])
    requires forall e :: e in next <==> e in cur || e in slots[idx].value
    requires forall e :: e in next ==> next[e] == if e in slots[idx].value then name else cur[e]
    ensures names + [name] == Minted(counter, idx + 1)
    ensures forall e :: e in next <==> e in inter || LastSlot(slots, e, idx + 1).Some?
    ensures forall e :: e in next ==>
      next[e] == (if LastSlot(slots, e, idx + 1).Some? then (names + [name])[LastSlot(slots, e, idx + 1).value] else inter[e])
  {
    forall e
      ensures e in next <==> e in inter || LastSlot(slots, e, idx + 1).Some?
      ensures e in next ==>
        next[e] == (if LastSlot(slots, e, idx + 1).Some? then (names + [name])[LastSlot(slots, e, idx + 1).value] else inter[e])
    {
      var last := LastSlot(slots, e, idx);
      if e !in slots[idx].value && last.Some? {
        assert (names + [name])[last.value] == names[last.value];
      }
    }
  }

  /** The variable minted for output `idx` of `p`. */
  function VarOf(ord: seq<Vertex>, p: Vertex, idx: nat): string
    requires p in ord
  {
    VarName(Base(ord, IndexIn(ord, p)) + idx)
  }

  /** Edge `e` holds the variable minted for output `i` of its producer `p`, which was printed. */
  ghost predicate PrintedBy(deps: ArgDeps, ord: seq<Vertex>, inter: Names, e: Edge, done: set<Vertex>)
    requires e in inter
  {
    IsBound(deps, e.0, e.1)
    && var (p, i) := deps[e.0][e.1].value;
    p in done && p in ord && inter[e] == VarOf(ord, p, i)
  }

  /**
   * `intermediates` after the vertices `done` were printed: it holds exactly
   * the bound keywords whose producer was printed, each with the variable
   * minted for the producer's slot.
   */
  ghost predicate Printed(deps: ArgDeps, ord: seq<Vertex>, inter: Names, done: set<Vertex>) {
    (forall e :: e in inter ==> PrintedBy(deps, ord, inter, e, done))
    && (forall u, k :: u in deps && k in deps[u] && deps[u][k].Some? && deps[u][k].value.0 in done ==> (u, k) in inter)
  }

  lemma TextAgreesFromPrinted(vs: set<Vertex>, deps: ArgDeps, argMap: ArgMap, ord: seq<Vertex>, i: nat, inter: Names)
    requires DepsInRange(deps) && IsTopoOrder(vs, deps, ord) && i < |ord|
    requires Printed(deps, ord, inter, Elems(ord[..i]))
    ensures TextAgrees(deps, argMap, ord, inter, ord[i])
  {
    var u := ord[i];
    forall j | 0 <= j < |u.Params()|
      ensures TextAgreesAt(deps, argMap, ord, inter, u, u.Params()[j].kwd)
    {
      TextAgreesAtKeyword(vs, deps, argMap, ord, i, inter, u.Params()[j].kwd);
    }
  }

  lemma TextAgreesAtKeyword(vs: set<Vertex>, deps: ArgDeps, argMap: ArgMap, ord: seq<Vertex>, i: nat, inter: Names,
                            k: string)
    requires DepsInRange(deps) && IsTopoOrder(vs, deps, ord) && i < |ord|
    requires Printed(deps, ord, inter, Elems(ord[..i]))
    ensures TextAgreesAt(deps, argMap, ord, inter, ord[i], k)
  {
    var u := ord[i];
    if IsBound(deps, u, k) {
      var p := deps[u][k].value.0;
      assert DependsOn(deps, u, p);
      ProducerFirst(vs, deps, ord, i, p);
      assert p == ord[..i][IndexIn(ord, p)];
      assert (u, k) in inter;
      assert PrintedBy(deps, ord, inter, (u, k), Elems(ord[..i]));
    }
  }

  /** In a sequence without repetitions, the `i`-th element is found at `i`. */
  lemma IndexInDistinct(ord: seq<Vertex>, i: nat)
    requires Distinct(ord) && i < |ord|
    ensures IndexIn(ord, ord[i]) == i
  {
  }

  /**
   * In a coherent graph, delivering the variables minted for `u` along its
   * slots keeps `intermediates` as it should be, now with `u` printed.
   */
  lemma PrintedStep(adj: Adjacency, deps: ArgDeps, ord: seq<Vertex>, slots: seq<Slot>, names: seq<string>,
                    inter: Names, inter': Names, done: set<Vertex>, u: Vertex)
    requires RowCoherent(adj, deps, u) && slots == adj[u] && u in ord && names == Minted(Base(ord, IndexIn(ord, u)), |slots|)
    requires Printed(deps, ord, inter, done)
    requires forall e :: e in inter' <==> e in inter || LastSlot(slots, e, |slots|).Some?
    requires forall e :: e in inter' ==>
      inter'[e] == (if LastSlot(slots, e, |slots|).Some? then names[LastSlot(slots, e, |slots|).value] else inter[e])
    ensures Printed(deps, ord, inter', done + {u})
  {
    forall e | e in inter'
      ensures PrintedBy(deps, ord, inter', e, done + {u})
    {
      PrintedEdge(adj, deps, ord, slots, names, inter, inter', done, u, e);
    }
    PrintedKeys(adj, deps, ord, slots, inter, inter', done, u);
  }

  /** Each delivered edge holds the variable of the slot that feeds it. */
  lemma PrintedEdge(adj: Adjacency, deps: ArgDeps, ord: seq<Vertex>, slots: seq<Slot>, names: seq<string>,
                    inter: Names, inter': Names, done: set<Vertex>, u: Vertex, e: Edge)
    requires RowCoherent(adj, deps, u) && slots == adj[u] && u in ord && names == Minted(Base(ord, IndexIn(ord, u)), |slots|)
    requires Printed(deps, ord, inter, done)
    requires e in inter' && (e in inter || LastSlot(slots, e, |slots|).Some?)
    requires inter'[e] == (if LastSlot(slots, e, |slots|).Some? then names[LastSlot(slots, e, |slots|).value] else inter[e])
    ensures PrintedBy(deps, ord, inter', e, done + {u})
  {
    var last := LastSlot(slots, e, |slots|);
    if last.Some? {
      NewEdgePrinted(adj, deps, ord, slots, names, inter', done, u, e, last.value);
    } else {
      assert PrintedBy(deps, ord, inter, e, done);
    }
  }

  /** An edge listed in slot `m` of `u` holds the variable minted for that slot. */
  lemma NewEdgePrinted(adj: Adjacency, deps: ArgDeps, ord: seq<Vertex>, slots: seq<Slot>, names: seq<string>,
                       inter': Names, done: set<Vertex>, u: Vertex, e: Edge, m: nat)
    requires RowCoherent(adj, deps, u) && slots == adj[u] && u in ord && names == Minted(Base(ord, IndexIn(ord, u)), |slots|)
    requires m < |slots| && e in SlotList(slots[m])
    requires e in inter' && inter'[e] == names[m]
    ensures PrintedBy(deps, ord, inter', e, done + {u})
  {
    assert BoundTo(deps, e, (u, m));
  }

  /** Every keyword bound to a slot of `u` has received a variable. */
  lemma PrintedKeys(adj: Adjacency, deps: ArgDeps, ord: seq<Vertex>, slots: seq<Slot>, inter: Names, inter': Names,
                    done: set<Vertex>, u: Vertex)
    requires RowCoherent(adj, deps, u) && slots == adj[u]
    requires Printed(deps, ord, inter, done)
    requires forall e :: e in inter' <==> e in inter || LastSlot(slots, e, |slots|).Some?
    ensures forall w, k :: w in deps && k in deps[w] && deps[w][k].Some? && deps[w][k].value.0 in done + {u} ==> (w, k) in inter'
  {
    forall w, k | w in deps && k in deps[w] && deps[w][k].Some? && deps[w][k].value.0 in done + {u}
      ensures (w, k) in inter'
    {
      var (p, idx) := deps[w][k].value;
      if p == u {
        assert Listed(adj, (u, idx), (w, k));
      }
    }
  }

  /**
   * The state of `straight_line` after the first `i` vertices of `ord` were
   * printed after `prog0`: the counter has minted their variables, `prog`
   * holds their lines and `intermediates` their variables.
   */
  ghost predicate Rendered(deps: ArgDeps, argMap: ArgMap, ord: seq<Vertex>, i: nat, prog0: string, prog: string,
                           counter: nat, inter: Names)
    requires i <= |ord|
  {
    counter == Base(ord, i) && prog == prog0 + Lines(deps, argMap, ord, i) && Printed(deps, ord, inter, Elems(ord[..i]))
  }

  /** Appending the line of the `i`-th vertex to the text of the first `i` gives the text of the first `i + 1`. */
  lemma LinesStep(deps: ArgDeps, argMap: ArgMap, ord: seq<Vertex>, i: nat, prog0: string, prog: string, line: string)
    requires i < |ord| && prog == prog0 + Lines(deps, argMap, ord, i) && line == Line(deps, argMap, ord, i)
    ensures prog + line == prog0 + Lines(deps, argMap, ord, i + 1)
  {
    AppendAssoc(prog0, Lines(deps, argMap, ord, i), line);
  }

  lemma AppendAssoc(a: string, b: string, c: string)
    ensures (a + b) + c == a + (b + c)
  {
  }

  /** Appending the line of the `i`-th vertex and delivering its variables renders one more vertex. */
  lemma RenderedStep(adj: Adjacency, deps: ArgDeps, argMap: ArgMap, ord: seq<Vertex>, i: nat, prog0: string,
                     prog: string, counter: nat, inter: Names, slots: seq<Slot>, call: string, names: seq<string>,
                     counter': nat, inter': Names)
    requires i < |ord| && IndexIn(ord, ord[i]) == i && ord[i] in adj && slots == adj[ord[i]] && |slots| == ord[i].Arity()
    requires RowCoherent(adj, deps, ord[i]) && call == Call(deps, argMap, ord, ord[i])
    requires Rendered(deps, argMap, ord, i, prog0, prog, counter, inter)
    requires names == Minted(counter, |slots|) && counter' == counter + |slots|
    requires forall e :: e in inter' <==> e in inter || LastSlot(slots, e, |slots|).Some?
    requires forall e :: e in inter' ==>
      inter'[e] == (if LastSlot(slots, e, |slots|).Some? then names[LastSlot(slots, e, |slots|).value] else inter[e])
    ensures Rendered(deps, argMap, ord, i + 1, prog0, prog + LineText(names, call), counter', inter')
  {
    assert names == Minted(Base(ord, i), ord[i].Arity());
    LinesStep(deps, argMap, ord, i, prog0, prog, LineText(names, call));
    PrintedStep(adj, deps, ord, slots, names, inter, inter', Elems(ord[..i]), ord[i]);
    ElemsPrefixStep(ord, i);
  }

  /**
   * One step of `straight_line` for a vertex other than the output vertex:
   * mint its variables, deliver them and append its line.
   */
  method EmitLine(call: string, slots: seq<Slot>, counter: nat, inter: Names, prog: string, ghost adj: Adjacency,
                  ghost deps: ArgDeps, ghost argMap: ArgMap, ghost ord: seq<Vertex>, ghost i: nat, ghost prog0: string,
                  ghost ready: bool)
    returns (counter': nat, inter': Names, prog': string)
    requires forall m :: 0 <= m < |slots| ==> slots[m].Some?
    requires i < |ord|
    requires ready ==> IndexIn(ord, ord[i]) == i && ord[i] in adj && slots == adj[ord[i]] && |slots| == ord[i].Arity()
    requires ready ==> RowCoherent(adj, deps, ord[i]) && call == Call(deps, argMap, ord, ord[i])
    requires ready ==> Rendered(deps, argMap, ord, i, prog0, prog, counter, inter)
    ensures ready ==> Rendered(deps, argMap, ord, i + 1, prog0, prog', counter', inter')
  {
    var names;
    names, counter', inter' := MintAndDeliver(slots, counter, inter);
    if ready {
      RenderedStep(adj, deps, argMap, ord, i, prog0, prog, counter, inter, slots, call, names, counter', inter');
    }
    prog' := prog + LineText(names, call);
  }

  /**
   * The call printed for the `i`-th vertex of the order: in a coherent graph
   * it is the closed form's.
   */
  method RenderCall(v: Vertex, inter: Names, argMap: ArgMap, ghost vs: set<Vertex>, ghost deps: ArgDeps,
                    ghost ord: seq<Vertex>, ghost i: nat, ghost ready: bool)
    returns (call: string)
    requires DepsInRange(deps) && i < |ord| && ord[i] == v
    requires ready ==> IsTopoOrder(vs, deps, ord) && Printed(deps, ord, inter, Elems(ord[..i]))
    ensures ready ==> call == Call(deps, argMap, ord, v)
  {
    if ready {
      TextAgreesFromPrinted(vs, deps, argMap, ord, i, inter);
    }
    var computation := GatherTexts(v, inter, argMap, deps, ord);
    call := CallText(v.name, computation);
  }

  /**
   * The loop of `straight_line` over the topological order: one line per
   * vertex before the output vertex, then the `>RETURN` line. When the
   * tables agree the text appended to `prog` is the closed form.
   */
  method RenderOrder(prog: string, order: seq<Vertex>, sink: Vertex, adjacency: Adjacency, argMap: ArgMap,
                     outIdx: seq<nat>, ghost vs: set<Vertex>, ghost deps: ArgDeps, ghost s: nat)
    returns (prog': string)
    requires DepsInRange(deps) && IsTopoOrder(vs, deps, order)
    requires s < |order| && order[s] == sink
    requires forall u :: u in vs ==> u in adjacency && |adjacency[u]| == u.Arity() && (u != sink ==> !IsOpen(adjacency, u))
    ensures RowsCoherent(vs, adjacency, deps) ==>
      prog' == prog + Lines(deps, argMap, order, s) + ReturnLine(deps, argMap, order, s, outIdx)
  {
    ghost var coh := RowsCoherent(vs, adjacency, deps);
    var intermediates: Names := map[];
    var counter := 0;
    var i := 0;
    prog' := prog;
    assert Elems(order[..0]) == {};
    while true
      invariant i <= s
      invariant coh ==> Rendered(deps, argMap, order, i, prog, prog', counter, intermediates)
      decreases s - i
    {
      var vertex := order[i];
      assert vertex in vs by { assert vertex in Elems(order); }
      var call := RenderCall(vertex, intermediates, argMap, vs, deps, order, i, coh);
      if vertex == sink {
        prog' := prog' + ReturnText(call, outIdx);
        return;
      }
      assert coh ==> RowCoherent(adjacency, deps, vertex);
      IndexInDistinct(order, i);
      counter, intermediates, prog' := EmitLine(call, adjacency[vertex], counter, intermediates, prog', adjacency, deps,
                                                argMap, order, i, prog, coh);
      i := i + 1;
    }
  }
}

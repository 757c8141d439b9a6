# meta-composition: a Dafny model of the function-graph engine

This project models the graph engine of meta-composition. A `FuncGraph` holds
vertices that wrap primitive functions, constants or sinks. `feed` connects an
output slot of one vertex to a keyword input of another. The graph can then:

- name its unbound keywords as external arguments (`x0`, `y0`, `s0`, ...);
- sort itself topologically and find its single output vertex;
- report its output types;
- be called like a function;
- be printed as a straight-line program.

The model also covers the integer and string primitives, the list and
dictionary primitives, and `argmax`.

The source's own form is kept:

- `FuncGraph` is a class whose `vertices`, `adjacency` and `argdeps` fields
  are reassigned by `Add` and `Feed`.
- The depth-first search, the argument naming loop, the execution loop and
  the rendering loop are methods with loops or recursion.
- Each of those methods is proved against a closed-form definition:
  - `DepthFirst.DfsOrder` for the search: the order in which the
    depth-first search finishes the vertices. `IsTopoOrder` and `HasCycle`
    are proved about that order;
  - `ArgTable` and `ArgMapOf` for the argument names;
  - the fuel-bounded evaluator `Eval` for execution;
  - `Render.Program` for the printed text.
- The primitives are pure functions with laws proved about them.

Python set iteration order is unspecified. Every operation that loops over
`self.vertices` therefore takes `iter`, a sequence listing each vertex
exactly once. Its results are stated for every such `iter`. Calling and
printing the graph run along the order the search finishes the vertices in,
`DfsOrder` of that `iter`.

Some behaviours of the code are not what its docstrings or names suggest:

- There is exactly one output vertex. A second vertex with an open slot
  raises "Incomplete graph".
- The docstring of `_get_topo_order` (composer.py:98) says sink vertices
  are left out of the sort. The code sorts them, and calls them, like any
  other vertex.
- Argument names are a keyword followed by a counter. A keyword that itself
  ends in a digit can therefore collide with another keyword's name: the
  second `x1` and the twelfth `x` are both named `x11`
  (`Arguments.DigitKeywordsCollide`). No primitive has such a keyword
  (`Arguments.KeywordsStem`), so in the modelled graphs the names are
  distinct.
- The integer and string primitives of func_primitives.py (`int_add`
  through `str_length`) are the same definitions as those of
  primitives.py. They are modelled once, in `Primitives`.
- A function vertex's `out_type` is wrapped twice. Signature extraction
  already turns `str` into `(str,)`, and `FuncVertex.__init__` wraps that
  again. So the test graph's `get_out_type()` is `((str,),)`, and the model
  reproduces this.

## Model

| member | source | states |
|---|---|---|
| `Primitives.IntDiv` | primitives.py:14-15 | floor division: 0 for a zero divisor, otherwise the q with y*q <= x < y*q + y (bounds reversed for y < 0) |
| `Primitives.IntMod` | primitives.py:17-18 | Python's remainder has the sign of the divisor: in [0, y) for y > 0, in (y, 0] for y < 0 |
| `Primitives.DivModIdentity` | primitives.py:14-18 | `int_add(int_mul(int_div(x, y), y), int_mod(x, y)) == x` for every nonzero y |
| `Primitives.FloorVersusEuclid` | primitives.py:14-18 | Python's floor `//` and `%` agree with Euclidean division exactly when y > 0 or y divides x; otherwise the quotient is one less and the remainder is shifted by y |
| `Primitives.IntDivUndoesMul` | primitives.py:11-15 | dividing a product by a nonzero factor gives the other factor back, with remainder 0 |
| `Primitives.StrConcat` | primitives.py:55-56 | the result is `a` followed by `b` |
| `Primitives.StrRepeatContents` | primitives.py:61-62 | `str_repeat` (`StrRepeat`): `s * n` has length \|s\|·max(n, 0) and its k-th character is `s[k % \|s\|]` |
| `Primitives.StrFlip` | primitives.py:67-68 | the result is `s` reversed, position by position |
| `Primitives.StrFlipInvolution` | primitives.py:67-68 | flipping twice gives the string back |
| `Primitives.StrLengthLaws` | primitives.py:64-65 | `str_length` (`StrLength`) adds over concatenation, is kept by flipping and multiplies under repetition |
| `FuncPrimitives.ListAppend` | func_primitives.py:41-42 | the result is `lst` followed by exactly `item` |
| `FuncPrimitives.ListGet` | func_primitives.py:47-50 | an element exactly for `0 <= index < len(lst)`; negative indices give `None` |
| `FuncPrimitives.ListConcat` | func_primitives.py:52-53 | the result is `a` followed by `b` |
| `FuncPrimitives.ListConcatAssociative` | func_primitives.py:52-53 | `list_concat` is associative |
| `FuncPrimitives.ListLengthLaws` | func_primitives.py:44-45 | `list_length` (`ListLength`): appending adds one to the length; concatenating adds the lengths |
| `FuncPrimitives.DictGet` | func_primitives.py:56-57 | present exactly when some entry has the key; then the value of that entry |
| `FuncPrimitives.DictSet` | func_primitives.py:59-62 | an existing key is overwritten in place, a new key is appended last; the argument is not modified |
| `FuncPrimitives.DictSetGet` | func_primitives.py:59-62 | after `dict_set`, `dict_get` of the key gives the new value and every other key is unchanged; keys stay distinct |
| `FuncPrimitives.DictKeys` | func_primitives.py:64-65 | the keys in insertion order |
| `FuncPrimitives.DictKeysExactlyOnce` | func_primitives.py:64-65 | each key is listed once, and is listed exactly when `dict_get` finds it |
| `Utils.ArgMax` | utils.py:36-58 | `None` exactly when no element exceeds -1; otherwise the first index of the maximum |
| `Text.ParseNatToString` | composer.py:157 | `str(n)` of a counter is a digit string that reads back as `n` |
| `Text.SplitNumberedName` | composer.py:157 | a stem not ending in a digit, followed by `str(n)`, determines both the stem and n |
| `Text.IntToString` | composer.py:39 | `str(value)` of an int: a digit string that reads back as the value, or `-` followed by one that reads back as its magnitude |
| `Vertices.Vertex.Func` | composer.py:11-18 | a function vertex has its given name and wraps the given primitive |
| `Vertices.Vertex.Const` | composer.py:38-42 | a constant vertex is named `str(value)` and holds the value |
| `Vertices.Vertex.Sink` | composer.py:58-61 | a sink vertex is named `__SINK__` and takes one input, `burn` |
| `Vertices.VertexShape` | composer.py:14-21 | keywords are distinct. `len()` is 1 for function vertices, whose `out_type` is `((t,),)`, 1 for constants, whose `out_type` is a bare type, and 0 for sinks |
| `Vertices.ApplyExact` | primitives.py:5-21 | `int_add`, `int_sub`, `int_mul` and `int_neg` (`Primitives.IntAdd`, `IntSub`, `IntMul`, `IntNeg`) given integers yield exactly `x + y`, `x - y`, `x * y` and `-x` on unbounded integers, without error; `str_length` yields `len(s)` |
| `Vertices.Apply` | primitives.py:17-18 | a primitive fails only with a type error or a zero division, and zero division happens exactly for `int_mod` with y == 0 |
| `Vertices.Invoke` | composer.py:30-34 | a successful call yields exactly `len(vertex)` outputs. A constant accepts only the empty argument set and yields its value. Failures are call errors |
| `GraphSpec.AddKeeps` | composer.py:83-87 | `add` keeps the tables well formed, and keeps them in agreement when the vertex is new |
| `GraphSpec.FeedKeeps` | composer.py:89-94 | `feed` keeps the tables well formed, and keeps them in agreement when the keyword was unbound |
| `GraphSpec.FeedKeepsListed` | composer.py:89-94 | after `feed`, every binding in `argdeps` is listed in `adjacency` |
| `GraphSpec.FeedKeepsBound` | composer.py:89-94 | after `feed` of an unbound keyword, every edge listed in `adjacency` is the binding in `argdeps` |
| `GraphSpec.RefeedLeavesStaleEdge` | composer.py:89-94 | feeding an already-bound keyword rebinds it but leaves the old edge listed, so the tables disagree |
| `GraphSpec.TopoOrderAcyclic` | composer.py:96-132 | a graph that has a topological order has no dependency cycle |
| `GraphSpec.CycleFromBackEdge` | composer.py:107-108 | reaching a vertex on the recursion stack again means the dependencies have a cycle |
| `GraphSpec.OpenSlots` | composer.py:134-139 | the indices of exactly the slots that are `None`, in increasing order |
| `Composer.FuncGraph.constructor` | composer.py:77-81 | a new graph is named, empty and valid |
| `Composer.FuncGraph.Add` | composer.py:83-87 | adds the vertex with all slots `None` and all keywords unbound, keeping the graph valid |
| `Composer.FuncGraph.Feed` | composer.py:89-94 | appends `(dst, kwd)` to slot `idx` of `src` (creating the list when `None`), binds `kwd` of `dst` to `(src, idx)`, keeps the graph valid |
| `DepthFirst.VisitFrom` | composer.py:100-112 | `dfs(v)` either meets a back edge or finishes `v` last, having seen `v` and only vertices of the graph |
| `DepthFirst.KeysFrom` | composer.py:103-111 | the keyword loop of `dfs(v)` from keyword j on ends with `v` finished last, the seen set only grown |
| `DepthFirst.SweepFrom` | composer.py:114-118 | the outer loop from the i-th vertex on sees every remaining vertex and only extends the order |
| `DepthFirst.DfsOrder` | composer.py:114-118 | the whole search sees every vertex of `iter` |
| `DepthFirst.KeysSkip` | composer.py:104-105 | an unbound keyword, or a producer already seen, leaves the loop's outcome unchanged |
| `DepthFirst.KeysBackEdge` | composer.py:107-108 | a producer still on the stack makes the search report a cycle |
| `DepthFirst.KeysDescend` | composer.py:109-110 | a producer not yet seen is visited first, and the loop continues from what that visit leaves |
| `DepthFirst.SweepNext` | composer.py:117-118 | the outer loop skips a seen vertex and otherwise visits it with an empty stack |
| `Composer.FuncGraph.Visit` | composer.py:100-112 | `dfs` computes exactly `VisitFrom`; a reported cycle is a cycle of the dependencies, and otherwise the vertex is appended after all its producers, extending a topological prefix |
| `Composer.FuncGraph.VisitKey` | composer.py:103-110 | one keyword of `dfs(v)` advances `KeysFrom` by one step; a back edge is a dependency cycle |
| `Composer.FuncGraph.SearchAll` | composer.py:113-118 | the first loop of `_get_topo_order` computes exactly `DfsOrder`: a cycle exactly when it meets a back edge, otherwise every vertex finished in a topological order |
| `Composer.FuncGraph.SearchDone` | composer.py:114-118 | after the last vertex of `iter` the search has finished all vertices in a topological order |
| `Composer.FuncGraph.FindOutput` | composer.py:121-130 | returns the output vertex, "no output vertex" exactly when no slot is open, "incomplete" exactly when two vertices have open slots |
| `Composer.FuncGraph.TopoOrder` | composer.py:96-132 | "cyclic" exactly when the dependencies have a cycle, which is exactly when the search meets a back edge; otherwise the order the search finishes the vertices in, which is topological, and the unique output vertex, or the output errors above |
| `Composer.FuncGraph.OutIndices` | composer.py:134-139 | the open slots of the output vertex |
| `Composer.FuncGraph.GetOutType` | composer.py:141-144 | the declared types of the open slots of the output vertex, or "not subscriptable" for a constant output vertex, with the ordering errors |
| `Composer.FuncGraph.GetArguments` | composer.py:146-160 | `inp_type` and `arg_map` are exactly the naming of the unbound keyword occurrences in iteration order: `arg_map` has a key for exactly the unbound (vertex, keyword) pairs, the j-th occurrence maps to its numbered name, and `inp_type` lists that name with the keyword's type |
| `Composer.NameArguments` | composer.py:151-159 | the inner loop extends the naming by the unbound keywords of one vertex |
| `Composer.NameStep` | composer.py:153-159 | one step numbers the keyword by its earlier unbound occurrences and updates `inp_type` and `arg_map` accordingly |
| `Arguments.OccurrencesExact` | composer.py:150-152 | an occurrence is listed exactly when its vertex is iterated and its keyword is unbound |
| `Arguments.OccurrencesPairsDistinct` | composer.py:150-152 | with each vertex iterated once, no (vertex, keyword) pair occurs twice |
| `Arguments.KeywordsStem` | composer.py:157 | no keyword of a primitive ends in a digit |
| `Arguments.GraphArguments` | composer.py:150-159 | the names of a graph's occurrences: one `inp_type` entry per occurrence with its type, and `arg_map` keyed by exactly the unbound pairs, each mapped to its own name |
| `Arguments.ArgMapExact` | composer.py:150-159 | `arg_map` has a key for exactly the unbound keywords of the iterated vertices |
| `Arguments.DigitKeywordsCollide` | composer.py:153-157 | a keyword ending in a digit can collide: on fourteen distinct vertices, the second `x1` and the twelfth `x` are both named `x11` |
| `Arguments.VertexOccurrences` | composer.py:151-152 | the occurrences of a vertex are exactly its unbound keywords |
| `Arguments.ArgNamesDistinct` | composer.py:153-157 | distinct occurrences get distinct argument names |
| `Arguments.NumberingGapless` | composer.py:153-157 | a keyword that occurs c+1 times is named with suffixes 0..c, without gaps |
| `Arguments.FirstNames` | composer.py:153-157 | when no keyword repeats, every argument is named `kwd` + "0" |
| `Arguments.ArgTableInOrder` | composer.py:158 | `inp_type` lists one entry per occurrence, in iteration order, with the keyword's type |
| `Arguments.ArgTableKeysDistinct` | composer.py:158 | the keys of `inp_type` are distinct |
| `Arguments.ArgMapOfKeys` | composer.py:159 | `arg_map` is keyed by exactly the unbound (vertex, keyword) pairs |
| `Arguments.ArgMapOfValues` | composer.py:159 | each unbound (vertex, keyword) maps to its own argument name |
| `Composer.BindPositional` | composer.py:222-223 | `kwargs` after binding the positional arguments to the argument names in order |
| `Composer.PositionalDomain` | composer.py:222-223 | the bound keywords are the caller's plus the first min(#names, #args) names |
| `Composer.PositionalKeeps` | composer.py:222-223 | a keyword argument not overwritten by a name keeps its value |
| `Composer.PositionalBinds` | composer.py:222-223 | with distinct names, each of the first names is bound to its positional argument |
| `Semantics.EvalStable` | composer.py:225-239 | along a topological order, the j-th vertex evaluates with j+1 steps of fuel, and more fuel changes nothing |
| `Semantics.InputsStable` | composer.py:226-231 | the keyword arguments of the j-th vertex are settled after j steps of fuel |
| `Semantics.Select` | composer.py:235 | `tuple(result[i] for i in out_idx)` |
| `Execution.GatherInputs` | composer.py:226-231 | collects a vertex's keywords from `intermediates`, else from the caller through `arg_map` (a missing one is a key error); equal to the reference inputs when `intermediates` agrees with it |
| `Execution.RunVertex` | composer.py:226-232 | one call of a vertex yields `len(vertex)` outputs or a call error, and equals the reference evaluation once its producers have run |
| `Execution.Deliver` | composer.py:237-239 | each consumer edge listed under a slot receives that slot's output, the last listing winning; other entries are unchanged |
| `Execution.RanStep` | composer.py:237-239 | delivering a vertex's outputs extends the agreement of `intermediates` with the reference evaluator by that vertex |
| `Execution.ReferenceSucceeds` | composer.py:234-235 | when every vertex before the output vertex succeeds, the result is the selected outputs of the output vertex |
| `Execution.ReferenceFails` | composer.py:232 | the first failing vertex along the order determines the error |
| `Execution.RunOrder` | composer.py:225-241 | the execution loop yields `len(out_idx)` values or a key/call error, and equals the reference run along the order |
| `Composer.FuncGraph.Execute` | composer.py:225-241 | running the order from the output vertex's open slots matches the reference run |
| `Composer.FuncGraph.Call` | composer.py:215-241 | ordering errors exactly as `_get_topo_order` raises them; otherwise the reference run along the search's order `DfsOrder`, which is topological, from the output vertex (`RunsAlong`), for the named and positional arguments; on success the selected outputs of the output vertex |
| `Composer.FuncGraph.CallOrdered` | composer.py:220-241 | once ordered, the call fails only with a call or key error, and its result is the reference run along that same order |
| `Composer.FuncGraph.CallOutcome` | composer.py:234-235 | a reference run that succeeds is the selection of `Eval` of the output vertex |
| `Render.VarNameInjective` | composer.py:205 | distinct counters give distinct variable names `!v<n>` |
| `Render.Minted` | composer.py:203-209 | a vertex's line names its outputs with the next consecutive counters |
| `Render.NumbersDistinct` | composer.py:204-206 | every output slot of every vertex in the order gets its own counter |
| `Render.ReadAfterMinted` | composer.py:193-208 | a bound keyword is printed as the variable its producer minted earlier in the program |
| `Render.GatherTexts` | composer.py:191-197 | the computation text of a vertex is its keywords with types and sources, in keyword order |
| `Render.DeliverSlot` | composer.py:207-208 | every consumer of a slot now reads that slot's variable |
| `Render.MintAndDeliver` | composer.py:203-209 | mints one variable per slot, advances the counter by `len(vertex)`, and records each consumer's variable |
| `Render.MintSlot` | composer.py:204-209 | one slot of the minting loop extends the names and the table by that slot |
| `Render.RenderedStep` | composer.py:203-210 | emitting a vertex's line extends the program by its closed-form line |
| `Render.EmitLine` | composer.py:203-210 | the loop body appends the line `names = vertex(computation)` |
| `Render.RenderCall` | composer.py:191-197 | the call text of a vertex, once its producers are printed |
| `Render.RenderOrder` | composer.py:190-212 | the loop prints every vertex before the output vertex and then the `>RETURN` line |
| `Composer.FuncGraph.PrintOrder` | composer.py:190-212 | the program after the header is the closed-form lines followed by the return line |
| `Composer.FuncGraph.StraightLine` | composer.py:179-212 | ordering errors as `_get_topo_order` raises them; otherwise the closed-form program along the search's order `DfsOrder` |
| `Scenario.IntAddFeedsRepeat` | test.py:4-19 | the test graph's inputs are `x0: int, y0: int, s0: str`, its output type is `((str,),)`, and `g(s0='a', x0=2, y0=3)` is `('aaaaa',)` for both iteration orders |
| `Scenario.BuildTest` | test.py:4-10 | building the test graph gives the expected tables, valid and in agreement |
| `Scenario.AddTestVertices` | test.py:4-9 | after `add(a)` and `add(b)` the graph holds the two new vertices with open slots and unbound keywords |
| `Scenario.AddFunc` | test.py:5-9 | adding a new function vertex gives it fresh rows and keeps the graph valid and in agreement |
| `Scenario.TestBuilt` | test.py:8-10 | `add(a)`, `add(b)`, `feed(a, 0, b, 'n')` produce the test tables, and `n` of `b` was unbound before |
| `Scenario.TestInpType` | test.py:15 | `get_inp_type()` of the test graph is `{'x0': int, 'y0': int, 's0': str}` |
| `Scenario.TestOutType` | test.py:16 | `get_out_type()` of the test graph is `((str,),)` |
| `Scenario.RunTest` | test.py:19 | calling the test graph with `s0='a', x0=2, y0=3` returns `('aaaaa',)` for any iteration order |
| `Scenario.TestCall` | test.py:19 | `__call__`'s contract pins the test call's result to `('aaaaa',)` |
| `Scenario.TestRunsAlong` | test.py:19 | a run along a topological order of the test graph returns `('aaaaa',)` |
| `Scenario.TestResult` | test.py:19 | the reference run of the test graph is `('aaaaa',)` |
| `Scenario.TestOrder` | test.py:10 | `[a, b]` is the only topological order of the test graph |
| `Scenario.TwoOrders` | test.py:8-9 | a set of two vertices is iterated as `[a, b]` or `[b, a]` |
| `Scenario.TestOpen` | test.py:10 | `repeat` is the unique output vertex of the test graph |
| `Scenario.TestAcyclic` | test.py:10 | the test graph has no cycle |
| `Scenario.TestArgumentsAB` | test.py:15 | iterating `int_add` first names the inputs `x0, y0, s0` |
| `Scenario.TestArgumentsBA` | test.py:15 | iterating `repeat` first names the inputs `s0, x0, y0`, with the same `arg_map` |
| `Scenario.TestCallArguments` | test.py:19 | in either order, `arg_map` is the same, and with no positional arguments the keyword arguments are used as given |
| `Scenario.TestGiven` | test.py:19 | the call supplies `x` and `y` of `int_add` and `s` of `repeat`; `n` of `repeat` reads the sum |
| `Scenario.EvalAdd` | primitives.py:5-6 | an `int_add` vertex given 2 and 3 yields `(5,)` |
| `Scenario.InputsRepeat` | test.py:10 | `repeat` receives `s='a'` from the caller and `n=5` from `int_add` |
| `Scenario.EvalRepeat` | primitives.py:61-62 | a `str_repeat` vertex given `'a'` and 5 yields `('aaaaa',)` |

## Left out

- `RandomComposer`, the generators, the reflection helpers of utils.py
  (`get_funcs`, `returns_single`, `get_types`), `softmax`, the float
  primitives, `to_float`, `trunc` and `str_upper`. Floats and case folding
  have no faithful model here. Each primitive's signature is given as data
  instead of being read from type hints.
- composer.py imports `returns_many`, which utils.py does not define. The
  model ignores the import.
- The block that is commented out at the end of primitives.py is not
  modelled.
- `__str__`, `__repr__`, `__len__` of the graph and the vertex string forms
  are not modelled. `repr(out_idx)` is rendered as a bracketed list of
  numbers. Types are a datatype, and `Vertices.TypeText` renders Python's
  `str()` of each, such as `<class 'int'>` and `(<class 'str'>,)`.
- `Composer.FuncGraph.Feed`:
  - requires `kwd` to be a keyword of `dst`. The source would silently add a
    foreign key to `argdeps[dst]`.
  - requires `0 <= idx < len(src)`, so Python's negative indexing and the
    IndexError are not modelled.
  - requires `src` and `dst` to be in the graph. The source raises KeyError
    otherwise.
- `Composer.FuncGraph.Call`, `Composer.FuncGraph.CallOrdered`,
  `Composer.FuncGraph.Execute`, `Execution.RunOrder`,
  `Composer.FuncGraph.StraightLine`, `Composer.FuncGraph.PrintOrder` and
  `Render.RenderOrder` characterise their result only when `adjacency` and
  `argdeps` agree (`TablesAgree`, or `RowsCoherent` on the tables). Feeding an already-bound keyword leaves a
  stale edge (`GraphSpec.RefeedLeavesStaleEdge`). After that, the model runs
  the source's loop, but no theorem describes its result.
- `Composer.FuncGraph.StraightLine`: the final `return prog` after the loop is
  unreachable, because the output vertex is always in the order. It is
  therefore not modelled separately.
- `Composer.FuncGraph.Visit`: Python's recursion limit (RecursionError on
  deep graphs) is not modelled.
- Python dict and set hashing of vertices is modelled as object identity,
  which is the default for these classes.
- Keyword arguments are matched to primitives by name and runtime tag. A
  call with a missing or ill-typed keyword is one `TypeError`. Python's
  duck typing, such as `str * bool` or `int + bool`, is not modelled.
- A `None` slot of a non-output vertex would make the execution and
  rendering loops raise TypeError. This cannot happen once
  `_get_topo_order` has succeeded, because the output vertex is the only
  vertex with an open slot. `Execution.RunOrder` and `Render.RenderOrder`
  therefore require it, and that TypeError is not modelled.
- The text that test.py prints for `g`, `repr(g)` and `g.straight_line()`
  is not computed for the test graph. Only the input types, output types
  and call result are.

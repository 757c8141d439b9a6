/**
 * The three vertex kinds of composer.py: a function vertex wrapping a
 * primitive, a constant vertex and a sink vertex. Types are abstract names,
 * runtime values a tagged variant, and each primitive's signature (which the
 * source reads from type hints) is given as data.
 */
module Vertices {
  import opened Wrappers
  import Text
  import P = Primitives

  /** Python type objects, by name; `TupleT` is a tuple of types such as `(str,)`. */
  datatype Type = IntT | FloatT | StrT | NoneT | TupleT(items: seq<Type>)

  /** Runtime values flowing along edges, tagged by their type. */
  datatype Value = IntV(i: int) | StrV(s: string)

  /** The exceptions the engine can raise. `FuelExhausted` is only produced by the reference evaluator. */
  datatype Error =
    | CyclicGraph          // "Cyclic graph"
    | NoOutputVertex       // "Graph does not have an output vertex."
    | IncompleteGraph      // "Incomplete graph: non-sink vertex ... has uncaught outputs"
    | MissingArgument(name: string)   // KeyError on an external argument
    | TypeError            // a primitive called with missing or ill-typed keywords
    | ZeroDivision         // `x % 0`
    | NotSubscriptable     // `out_type[i]` on a bare type object
    | FuelExhausted

  /** The integer and string primitives that a function vertex can wrap. */
  datatype Prim = IntAdd | IntSub | IntMul | IntDiv | IntMod | IntNeg
                | StrConcat | StrRepeat | StrLength | StrFlip

  /** One entry of `inp_type`: a keyword and its annotated type. */
  datatype Param = Param(kwd: string, ty: Type)

  /** A return annotation: a single type, or `tuple[...]` with several. */
  datatype Returns = Single(t: Type) | Many(ts: seq<Type>)

  /** The parameter annotations of the primitives in primitives.py, in keyword order. */
  function ParamsOf(op: Prim): seq<Param> {
    match op
    case IntAdd | IntSub | IntMul | IntDiv | IntMod => [Param("x", IntT), Param("y", IntT)]
    case IntNeg => [Param("x", IntT)]
    case StrConcat => [Param("a", StrT), Param("b", StrT)]
    case StrRepeat => [Param("s", StrT), Param("n", IntT)]
    case StrLength | StrFlip => [Param("s", StrT)]
  }

  /** The return annotations of the primitives in primitives.py. */
  function ReturnsOf(op: Prim): Returns {
    match op
    case IntAdd | IntSub | IntMul | IntDiv | IntMod | IntNeg | StrLength => Single(IntT)
    case StrConcat | StrRepeat | StrFlip => Single(StrT)
  }

  /** A vertex's `out_type`: a tuple of types, or a bare type object. */
  datatype OutType = Bare(t: Type) | Tuple(ts: seq<Type>)

  datatype Kind = FuncKind(op: Prim) | ConstKind(value: Value) | SinkKind(dtype: Type)

  function TypeOf(v: Value): Type {
    match v
    case IntV(_) => IntT
    case StrV(_) => StrT
  }

  /** `str(value)`, the name of a constant vertex. */
  function ValueText(v: Value): string {
    match v
    case IntV(i) => Text.IntToString(i)
    case StrV(s) => s
  }

  /** `str(t)` for a type object, as it appears in a rendered program. */
  function TypeText(t: Type): string {
    match t
    case IntT => "<class 'int'>"
    case FloatT => "<class 'float'>"
    case StrT => "<class 'str'>"
    case NoneT => "<class 'NoneType'>"
    case TupleT(items) =>
      "(" + Text.Join(", ", seq(|items|, i requires 0 <= i < |items| => TypeText(items[i])))
      + (if |items| == 1 then "," else "") + ")"
  }

  /** The keywords of a parameter list are distinct, as the keys of a dict are. */
  predicate DistinctKeywords(ps: seq<Param>) {
    forall i, j :: 0 <= i < j < |ps| ==> ps[i].kwd != ps[j].kwd
  }

  function KeywordsOf(ps: seq<Param>): set<string> {
    set p | p in ps :: p.kwd
  }

  /**
   * A vertex: its name and kind never change after construction. Python
   * identity of vertex objects is Dafny object identity.
   */
  class Vertex {
    const name: string
    const kind: Kind

    /** `FuncVertex(name, func)`. */
    constructor Func(name: string, op: Prim)
      ensures this.name == name && kind == FuncKind(op)
    {
      this.name := name;
      kind := FuncKind(op);
    }

    /** `ConstVertex(value)`: named `str(value)`. */
    constructor Const(value: Value)
      ensures name == ValueText(value) && kind == ConstKind(value)
    {
      name := ValueText(value);
      kind := ConstKind(value);
    }

    /** `SinkVertex(dtype)`: named `__SINK__`, with the single input `burn`. */
    constructor Sink(dtype: Type)
      ensures name == "__SINK__" && kind == SinkKind(dtype)
    {
      name := "__SINK__";
      kind := SinkKind(dtype);
    }

    /** `inp_type`, in keyword order. */
    function Params(): seq<Param> {
      match kind
      case FuncKind(op) => ParamsOf(op)
      case ConstKind(_) => []
      case SinkKind(t) => [Param("burn", t)]
    }

    function Keywords(): set<string> {
      KeywordsOf(Params())
    }

    /**
     * `out_type`. A function vertex with a single return type wraps the
     * one-element tuple that signature extraction already produced in
     * another tuple, so its only slot is declared as `(t,)`.
     */
    function OutType(): OutType {
      match kind
      case FuncKind(op) =>
        (match ReturnsOf(op)
         case Single(t) => Tuple([TupleT([t])])
         case Many(ts) => Tuple(ts))
      case ConstKind(v) => Bare(TypeOf(v))
      case SinkKind(_) => Bare(NoneT)
    }

    /** `len(vertex)`: the number of output slots. */
    function Arity(): nat {
      match kind
      case FuncKind(_) => |OutType().ts|
      case ConstKind(_) => 1
      case SinkKind(_) => 0
    }
  }

  /** Every vertex has distinct keywords, and its arity is what its kind says. */
  lemma VertexShape(v: Vertex)
    ensures DistinctKeywords(v.Params())
    ensures v.kind.FuncKind? ==> v.Arity() == 1 && v.OutType() == Tuple([TupleT([ReturnsOf(v.kind.op).t])])
    ensures v.kind.ConstKind? ==> v.Arity() == 1 && v.Params() == [] && v.OutType() == Bare(TypeOf(v.kind.value))
    ensures v.kind.SinkKind? ==> v.Arity() == 0 && v.Params() == [Param("burn", v.kind.dtype)]
  {
  }

  function IntArg(kw: map<string, Value>, k: string): Option<int> {
    if k in kw && kw[k].IntV? then Some(kw[k].i) else None
  }

  function StrArg(kw: map<string, Value>, k: string): Option<string> {
    if k in kw && kw[k].StrV? then Some(kw[k].s) else None
  }

  /** The errors that ordering a graph and finding its output vertex can raise. */
  predicate GraphError(e: Error) {
    e == CyclicGraph || e == NoOutputVertex || e == IncompleteGraph
  }

  /** The errors that calling a vertex can raise. */
  predicate CallError(e: Error) {
    e == TypeError || e == ZeroDivision
  }

  /** Calls a primitive with keyword arguments of the annotated types. */
  function Apply(op: Prim, kw: map<string, Value>): (r: Result<Value, Error>)
    ensures r.Err? ==> CallError(r.error)
    ensures r == Err(ZeroDivision) <==> op == IntMod && IntArg(kw, "x").Some? && IntArg(kw, "y") == Some(0)
  {
    var x, y, a, b, s, n := IntArg(kw, "x"), IntArg(kw, "y"), StrArg(kw, "a"), StrArg(kw, "b"), StrArg(kw, "s"), IntArg(kw, "n");
    match op
    case IntAdd => if x.Some? && y.Some? then Ok(IntV(P.IntAdd(x.value, y.value))) else Err(TypeError)
    case IntSub => if x.Some? && y.Some? then Ok(IntV(P.IntSub(x.value, y.value))) else Err(TypeError)
    case IntMul => if x.Some? && y.Some? then Ok(IntV(P.IntMul(x.value, y.value))) else Err(TypeError)
    case IntDiv => if x.Some? && y.Some? then Ok(IntV(P.IntDiv(x.value, y.value))) else Err(TypeError)
    case IntMod =>
      if x.Some? && y.Some? then (if y.value == 0 then Err(ZeroDivision) else Ok(IntV(P.IntMod(x.value, y.value))))
      else Err(TypeError)
    case IntNeg => if x.Some? then Ok(IntV(P.IntNeg(x.value))) else Err(TypeError)
    case StrConcat => if a.Some? && b.Some? then Ok(StrV(P.StrConcat(a.value, b.value))) else Err(TypeError)
    case StrRepeat => if s.Some? && n.Some? then Ok(StrV(P.StrRepeat(s.value, n.value))) else Err(TypeError)
    case StrLength => if s.Some? then Ok(IntV(P.StrLength(s.value))) else Err(TypeError)
    case StrFlip => if s.Some? then Ok(StrV(P.StrFlip(s.value))) else Err(TypeError)
  }

  /**
   * The integer primitives given integer `x` and `y`, and `str_length` given a
   * string: Python's `+`, `-`, `*`, unary `-` and `len` on unbounded
   * integers, with no wrap-around and no error.
   */
  lemma ApplyExact(x: int, y: int, s: string)
    ensures Apply(IntAdd, map["x" := IntV(x), "y" := IntV(y)]) == Ok(IntV(x + y))
    ensures Apply(IntSub, map["x" := IntV(x), "y" := IntV(y)]) == Ok(IntV(x - y))
    ensures Apply(IntMul, map["x" := IntV(x), "y" := IntV(y)]) == Ok(IntV(x * y))
    ensures Apply(IntNeg, map["x" := IntV(x)]) == Ok(IntV(-x))
    ensures Apply(StrLength, map["s" := StrV(s)]) == Ok(IntV(|s|))
  {
  }

  /**
   * `vertex(**kwargs)`: a function vertex calls its primitive with exactly its
   * keywords and wraps the single result in a one-element tuple; a constant
   * vertex takes no arguments and yields its value; a sink vertex accepts
   * anything and yields nothing.
   */
  function Invoke(v: Vertex, kw: map<string, Value>): (r: Result<seq<Value>, Error>)
    ensures r.Ok? ==> |r.value| == v.Arity()
    ensures r.Err? ==> CallError(r.error)
    ensures v.kind.ConstKind? ==> (r.Ok? <==> kw == map[]) && (r.Ok? ==> r.value == [v.kind.value])
  {
    match v.kind
    case FuncKind(op) =>
      if kw.Keys != v.Keywords() then Err(TypeError)
      else
        var x :- Apply(op, kw);
        Ok([x])
    case ConstKind(value) => if kw == map[] then Ok([value]) else Err(TypeError)
    case SinkKind(_) => Ok([])
  }
}

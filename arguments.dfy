/**
 * How `_get_arguments` names the graph's inputs: each unbound keyword
 * occurrence, in vertex iteration order and then keyword order, is named
 * `kwd` followed by the number of earlier unbound occurrences of the same
 * keyword.
 */
module Arguments {
  import opened Wrappers
  import opened Vertices
  import opened GraphSpec
  import opened Text
  import FuncPrimitives

  /** An unbound keyword of a vertex, with its declared type. */
  type Occurrence = (Vertex, Param)

  /** The unbound parameters among `ps` of `v`, in order. */
  function VertexOccurrences(deps: ArgDeps, v: Vertex, ps: seq<Param>): (occ: seq<Occurrence>)
    ensures forall j :: 0 <= j < |occ| ==> occ[j].0 == v && occ[j].1 in ps && !IsBound(deps, v, occ[j].1.kwd)
    ensures forall p :: p in ps && !IsBound(deps, v, p.kwd) ==> (v, p) in occ
  {
    if ps == [] then []
    else
      var p := ps[|ps| - 1];
      VertexOccurrences(deps, v, ps[..|ps| - 1]) + (if IsBound(deps, v, p.kwd) then [] else [(v, p)])
  }

  /** All unbound keyword occurrences, vertex by vertex in the order `iter`. */
  function Occurrences(deps: ArgDeps, iter: seq<Vertex>): seq<Occurrence> {
    if iter == [] then []
    else
      var v := iter[|iter| - 1];
      Occurrences(deps, iter[..|iter| - 1]) + VertexOccurrences(deps, v, v.Params())
  }

  /**
   * The occurrences are exactly the unbound keywords of the vertices of
   * `iter`: each one names a vertex of `iter` and a parameter of it whose
   * keyword is not bound, and every such pair is listed.
   */
  lemma {:induction false} OccurrencesExact(deps: ArgDeps, iter: seq<Vertex>, v: Vertex, p: Param)
    ensures (v, p) in Occurrences(deps, iter) <==> v in iter && p in v.Params() && !IsBound(deps, v, p.kwd)
  {
    if iter != [] {
      var n := |iter| - 1;
      OccurrencesExact(deps, iter[..n], v, p);
      assert iter == iter[..n] + [iter[n]];
      var occ := VertexOccurrences(deps, iter[n], iter[n].Params());
      if (v, p) in occ {
        var j :| 0 <= j < |occ| && occ[j] == (v, p);
      }
    }
  }

  /** Every occurrence names a vertex of `iter` and one of its parameters. */
  lemma {:induction false} OccurrencesIn(deps: ArgDeps, iter: seq<Vertex>)
    ensures forall j :: 0 <= j < |Occurrences(deps, iter)| ==>
      Occurrences(deps, iter)[j].0 in iter && Occurrences(deps, iter)[j].1 in Occurrences(deps, iter)[j].0.Params()
  {
    var occ := Occurrences(deps, iter);
    forall j | 0 <= j < |occ|
      ensures occ[j].0 in iter && occ[j].1 in occ[j].0.Params()
    {
      OccurrencesExact(deps, iter, occ[j].0, occ[j].1);
    }
  }

  /** Within one vertex, distinct keywords give distinct occurrences. */
  lemma {:induction false} VertexPairsDistinct(deps: ArgDeps, v: Vertex, ps: seq<Param>)
    requires DistinctKeywords(ps)
    ensures PairsDistinct(VertexOccurrences(deps, v, ps))
  {
    if ps != [] {
      var n := |ps| - 1;
      var front := VertexOccurrences(deps, v, ps[..n]);
      assert DistinctKeywords(ps[..n]) by {
        forall i, j | 0 <= i < j < n
          ensures ps[..n][i].kwd != ps[..n][j].kwd
        {
          assert ps[..n][i] == ps[i] && ps[..n][j] == ps[j];
        }
      }
      VertexPairsDistinct(deps, v, ps[..n]);
      forall i | 0 <= i < |front|
        ensures front[i].1.kwd != ps[n].kwd
      {
        var m :| 0 <= m < n && ps[..n][m] == front[i].1;
        assert ps[m] == front[i].1;
      }
    }
  }

  /**
   * When `iter` lists each vertex once, no (vertex, keyword) pair occurs
   * twice, so `arg_map` keeps one name per occurrence.
   */
  lemma {:induction false} OccurrencesPairsDistinct(deps: ArgDeps, iter: seq<Vertex>)
    requires Distinct(iter)
    ensures PairsDistinct(Occurrences(deps, iter))
  {
    if iter != [] {
      var n := |iter| - 1;
      var v := iter[n];
      var front := Occurrences(deps, iter[..n]);
      var back := VertexOccurrences(deps, v, v.Params());
      assert Distinct(iter[..n]);
      OccurrencesPairsDistinct(deps, iter[..n]);
      VertexShape(v);
      VertexPairsDistinct(deps, v, v.Params());
      OccurrencesIn(deps, iter[..n]);
      forall i | 0 <= i < |front|
        ensures front[i].0 != v
      {
        var m :| 0 <= m < n && iter[..n][m] == front[i].0;
        assert iter[m] == front[i].0;
      }
      PairsDistinctAppend(front, back, v);
    }
  }

  lemma PairsDistinctAppend(front: seq<Occurrence>, back: seq<Occurrence>, v: Vertex)
    requires PairsDistinct(front) && PairsDistinct(back)
    requires forall i :: 0 <= i < |front| ==> front[i].0 != v
    requires forall j :: 0 <= j < |back| ==> back[j].0 == v
    ensures PairsDistinct(front + back)
  {
    var occ := front + back;
    forall i, j | 0 <= i < j < |occ|
      ensures (occ[i].0, occ[i].1.kwd) != (occ[j].0, occ[j].1.kwd)
    {
      if j < |front| {
        assert occ[i] == front[i] && occ[j] == front[j];
      } else if i >= |front| {
        assert occ[i] == back[i - |front|] && occ[j] == back[j - |front|];
      } else {
        assert occ[i] == front[i] && occ[j] == back[j - |front|];
      }
    }
  }

  /** No keyword of any vertex ends in a digit. */
  lemma KeywordsStem(v: Vertex)
    ensures forall p :: p in v.Params() ==> StemKeyword(p.kwd)
  {
    forall p | p in v.Params()
      ensures StemKeyword(p.kwd)
    {
      match v.kind
      case FuncKind(op) =>
        assert p.kwd in ["x", "y", "a", "b", "s", "n"];
      case ConstKind(_) =>
      case SinkKind(t) =>
        assert p.kwd == "burn";
    }
  }

  /** How many occurrences of keyword `kwd` there are in `occ`. */
  function CountKwd(occ: seq<Occurrence>, kwd: string): nat {
    if occ == [] then 0
    else CountKwd(occ[..|occ| - 1], kwd) + (if occ[|occ| - 1].1.kwd == kwd then 1 else 0)
  }

  /** The name of the j-th occurrence: its keyword and its number among equal keywords. */
  function ArgName(occ: seq<Occurrence>, j: nat): string
    requires j < |occ|
  {
    occ[j].1.kwd + NatToString(CountKwd(occ[..j], occ[j].1.kwd))
  }

  /** `inp_type`: argument name -> declared type, built by dict assignment. */
  function ArgTable(occ: seq<Occurrence>): FuncPrimitives.Dict<string, Type> {
    if occ == [] then []
    else FuncPrimitives.DictSet(ArgTable(occ[..|occ| - 1]), ArgName(occ, |occ| - 1), occ[|occ| - 1].1.ty)
  }

  /** `arg_map`: (vertex, kwd) -> argument name. */
  function ArgMapOf(occ: seq<Occurrence>): map<Edge, string> {
    if occ == [] then map[]
    else
      var n := |occ| - 1;
      ArgMapOf(occ[..n])[(occ[n].0, occ[n].1.kwd) := ArgName(occ, n)]
  }

  /** No two occurrences are the same keyword of the same vertex. */
  predicate PairsDistinct(occ: seq<Occurrence>) {
    forall i, j :: 0 <= i < j < |occ| ==> (occ[i].0, occ[i].1.kwd) != (occ[j].0, occ[j].1.kwd)
  }

  lemma {:induction false} ArgNamePrefix(occ: seq<Occurrence>, n: nat, j: nat)
    requires j < n <= |occ|
    ensures ArgName(occ[..n], j) == ArgName(occ, j)
  {
    assert occ[..n][..j] == occ[..j];
  }

  /** `arg_map` has one key per occurrence and no other. */
  lemma {:induction false} ArgMapOfKeys(occ: seq<Occurrence>)
    ensures forall e :: e in ArgMapOf(occ) ==> exists j :: 0 <= j < |occ| && e == (occ[j].0, occ[j].1.kwd)
    ensures forall j :: 0 <= j < |occ| ==> (occ[j].0, occ[j].1.kwd) in ArgMapOf(occ)
  {
    if occ != [] {
      var n := |occ| - 1;
      ArgMapOfKeys(occ[..n]);
      forall e | e in ArgMapOf(occ)
        ensures exists j :: 0 <= j < |occ| && e == (occ[j].0, occ[j].1.kwd)
      {
        if e != (occ[n].0, occ[n].1.kwd) {
          assert e in ArgMapOf(occ[..n]);
          var j :| 0 <= j < |occ[..n]| && e == (occ[..n][j].0, occ[..n][j].1.kwd);
          assert occ[..n][j] == occ[j];
        }
      }
      forall j | 0 <= j < n
        ensures (occ[j].0, occ[j].1.kwd) in ArgMapOf(occ)
      {
        assert occ[..n][j] == occ[j];
      }
    }
  }

  /** With distinct (vertex, keyword) pairs, each occurrence maps to its own name. */
  lemma {:induction false} ArgMapOfValues(occ: seq<Occurrence>)
    requires PairsDistinct(occ)
    ensures forall j :: 0 <= j < |occ| ==>
      (occ[j].0, occ[j].1.kwd) in ArgMapOf(occ) && ArgMapOf(occ)[(occ[j].0, occ[j].1.kwd)] == ArgName(occ, j)
  {
    if occ != [] {
      var n := |occ| - 1;
      ArgMapOfValues(occ[..n]);
      forall j | 0 <= j < n
        ensures (occ[j].0, occ[j].1.kwd) in ArgMapOf(occ) && ArgMapOf(occ)[(occ[j].0, occ[j].1.kwd)] == ArgName(occ, j)
      {
        assert occ[..n][j] == occ[j];
        ArgNamePrefix(occ, n, j);
      }
    }
  }

  lemma {:induction false} CountMonotone(occ: seq<Occurrence>, i: nat, j: nat, k: string)
    requires i <= j <= |occ|
    ensures CountKwd(occ[..i], k) <= CountKwd(occ[..j], k)
    decreases j
  {
    if i < j {
      CountMonotone(occ, i, j - 1, k);
      assert occ[..j][..j - 1] == occ[..j - 1];
    }
  }

  /** The keyword of an occurrence does not end in a digit. */
  predicate StemKeyword(kwd: string) {
    |kwd| == 0 || !IsDigit(kwd[|kwd| - 1])
  }

  /** A name built from a keyword stem and a number splits back into both. */
  lemma NameParts(a: string, m: nat)
    requires StemKeyword(a)
    ensures DigitRunStart(a + NatToString(m)) == |a|
    ensures (a + NatToString(m))[..|a|] == a
    ensures AllDigits((a + NatToString(m))[|a|..]) && ParseNat((a + NatToString(m))[|a|..]) == m
  {
    DigitRunStartAfterStem(a, NatToString(m));
    assert (a + NatToString(m))[|a|..] == NatToString(m);
    ParseNatToString(m);
  }

  /**
   * When no keyword ends in a digit, the names are pairwise distinct, so
   * `inp_type` has one entry per unbound occurrence.
   */
  lemma ArgNamesDistinct(occ: seq<Occurrence>, i: nat, j: nat)
    requires forall m :: 0 <= m < |occ| ==> StemKeyword(occ[m].1.kwd)
    requires i < j < |occ|
    ensures ArgName(occ, i) != ArgName(occ, j)
  {
    var a, b := occ[i].1.kwd, occ[j].1.kwd;
    NameParts(a, CountKwd(occ[..i], a));
    NameParts(b, CountKwd(occ[..j], b));
    if a == b {
      assert occ[..i + 1][..i] == occ[..i];
      CountMonotone(occ, i + 1, j, a);
    }
  }

  /** The n-th number minted for a keyword is n, with no gaps: `kwd0`, `kwd1`, ... */
  lemma {:induction false} NumberingGapless(occ: seq<Occurrence>, kwd: string, c: nat)
    requires c < CountKwd(occ, kwd)
    ensures exists j :: 0 <= j < |occ| && occ[j].1.kwd == kwd && ArgName(occ, j) == kwd + NatToString(c)
  {
    var n := |occ| - 1;
    if c < CountKwd(occ[..n], kwd) {
      NumberingGapless(occ[..n], kwd, c);
      var j :| 0 <= j < n && occ[..n][j].1.kwd == kwd && ArgName(occ[..n], j) == kwd + NatToString(c);
      ArgNamePrefix(occ, n, j);
    } else {
      assert occ[..n] == occ[..n];
      assert ArgName(occ, n) == kwd + NatToString(c);
    }
  }

  /** A keyword that does not occur in `occ` has been counted zero times. */
  lemma {:induction false} CountAbsent(occ: seq<Occurrence>, kwd: string)
    requires forall i :: 0 <= i < |occ| ==> occ[i].1.kwd != kwd
    ensures CountKwd(occ, kwd) == 0
  {
    if occ != [] {
      CountAbsent(occ[..|occ| - 1], kwd);
    }
  }

  /** When no keyword occurs twice, every input is named its keyword followed by `0`. */
  lemma FirstNames(occ: seq<Occurrence>)
    requires forall i, j :: 0 <= i < j < |occ| ==> occ[i].1.kwd != occ[j].1.kwd
    ensures forall j :: 0 <= j < |occ| ==> ArgName(occ, j) == occ[j].1.kwd + "0"
  {
    forall j | 0 <= j < |occ|
      ensures ArgName(occ, j) == occ[j].1.kwd + "0"
    {
      CountAbsent(occ[..j], occ[j].1.kwd);
      assert NatToString(0) == "0";
    }
  }

  lemma DictSetFresh(d: FuncPrimitives.Dict<string, Type>, key: string, ty: Type)
    requires forall i :: 0 <= i < |d| ==> d[i].0 != key
    ensures FuncPrimitives.DictSet(d, key, ty) == d + [(key, ty)]
  {
  }

  /**
   * With pairwise distinct names, `inp_type` lists every occurrence once,
   * in order, with its declared type.
   */
  lemma {:induction false} ArgTableInOrder(occ: seq<Occurrence>)
    requires forall i, j :: 0 <= i < j < |occ| ==> ArgName(occ, i) != ArgName(occ, j)
    ensures |ArgTable(occ)| == |occ|
    ensures forall j :: 0 <= j < |occ| ==> ArgTable(occ)[j] == (ArgName(occ, j), occ[j].1.ty)
  {
    if occ != [] {
      var n := |occ| - 1;
      NamesDistinctPrefix(occ, n);
      ArgTableInOrder(occ[..n]);
      ArgTableStep(occ);
    }
  }

  lemma NamesDistinctPrefix(occ: seq<Occurrence>, n: nat)
    requires n <= |occ|
    requires forall i, j :: 0 <= i < j < |occ| ==> ArgName(occ, i) != ArgName(occ, j)
    ensures forall i, j :: 0 <= i < j < n ==> ArgName(occ[..n], i) != ArgName(occ[..n], j)
  {
    forall i, j | 0 <= i < j < n
      ensures ArgName(occ[..n], i) != ArgName(occ[..n], j)
    {
      ArgNamePrefix(occ, n, i);
      ArgNamePrefix(occ, n, j);
    }
  }

  lemma ArgTableStep(occ: seq<Occurrence>)
    requires occ != []
    requires forall i :: 0 <= i < |occ| - 1 ==> ArgName(occ, i) != ArgName(occ, |occ| - 1)
    requires var d := ArgTable(occ[..|occ| - 1]);
      |d| == |occ| - 1 && forall j :: 0 <= j < |occ| - 1 ==> d[j] == (ArgName(occ[..|occ| - 1], j), occ[..|occ| - 1][j].1.ty)
    ensures |ArgTable(occ)| == |occ|
    ensures forall j :: 0 <= j < |occ| ==> ArgTable(occ)[j] == (ArgName(occ, j), occ[j].1.ty)
  {
    var n := |occ| - 1;
    var d := ArgTable(occ[..n]);
    forall j | 0 <= j < n
      ensures d[j] == (ArgName(occ, j), occ[j].1.ty)
    {
      ArgNamePrefix(occ, n, j);
    }
    DictSetFresh(d, ArgName(occ, n), occ[n].1.ty);
    var r := ArgTable(occ);
    assert r == d + [(ArgName(occ, n), occ[n].1.ty)];
    forall j | 0 <= j < |occ|
      ensures r[j] == (ArgName(occ, j), occ[j].1.ty)
    {
      if j < n {
        assert r[j] == d[j];
      }
    }
  }

  /** `inp_type` is a dict: its keys are distinct whatever the names. */
  lemma {:induction false} ArgTableKeysDistinct(occ: seq<Occurrence>)
    ensures FuncPrimitives.KeysDistinct(ArgTable(occ))
  {
    if occ != [] {
      var n := |occ| - 1;
      ArgTableKeysDistinct(occ[..n]);
      FuncPrimitives.DictSetGet(ArgTable(occ[..n]), ArgName(occ, n), occ[n].1.ty, ArgName(occ, n));
    }
  }

  /**
   * What `_get_arguments()` builds for a graph whose vertices are listed
   * once each by `iter`: `arg_map` has a key for exactly the unbound
   * keywords of those vertices, and `inp_type` lists every unbound
   * occurrence once, in order, under the same name that `arg_map` gives it.
   */
  lemma GraphArguments(deps: ArgDeps, iter: seq<Vertex>)
    requires Distinct(iter)
    ensures var occ := Occurrences(deps, iter);
      forall v, k :: (v, k) in ArgMapOf(occ) <==> v in iter && k in v.Keywords() && !IsBound(deps, v, k)
    ensures var occ := Occurrences(deps, iter);
      |ArgTable(occ)| == |occ|
      && forall j :: 0 <= j < |occ| ==>
        (occ[j].0, occ[j].1.kwd) in ArgMapOf(occ) && ArgMapOf(occ)[(occ[j].0, occ[j].1.kwd)] == ArgName(occ, j)
        && ArgTable(occ)[j] == (ArgName(occ, j), occ[j].1.ty)
  {
    var occ := Occurrences(deps, iter);
    ArgMapOfKeys(occ);
    OccurrencesPairsDistinct(deps, iter);
    ArgMapOfValues(occ);
    OccurrencesIn(deps, iter);
    forall m | 0 <= m < |occ|
      ensures StemKeyword(occ[m].1.kwd)
    {
      KeywordsStem(occ[m].0);
    }
    forall i, j | 0 <= i < j < |occ|
      ensures ArgName(occ, i) != ArgName(occ, j)
    {
      ArgNamesDistinct(occ, i, j);
    }
    ArgTableInOrder(occ);
    ArgMapExact(deps, iter);
  }

  /** The argument map has a key for exactly the unbound keywords of the vertices. */
  lemma ArgMapExact(deps: ArgDeps, iter: seq<Vertex>)
    ensures var occ := Occurrences(deps, iter);
      forall v, k :: (v, k) in ArgMapOf(occ) <==> v in iter && k in v.Keywords() && !IsBound(deps, v, k)
  {
    var occ := Occurrences(deps, iter);
    ArgMapOfKeys(occ);
    forall v, k
      ensures (v, k) in ArgMapOf(occ) <==> v in iter && k in v.Keywords() && !IsBound(deps, v, k)
    {
      if (v, k) in ArgMapOf(occ) {
        var j :| 0 <= j < |occ| && (v, k) == (occ[j].0, occ[j].1.kwd);
        OccurrencesExact(deps, iter, v, occ[j].1);
        assert occ[j] in occ;
      }
      if v in iter && k in v.Keywords() && !IsBound(deps, v, k) {
        var p :| p in v.Params() && p.kwd == k;
        OccurrencesExact(deps, iter, v, p);
        var j :| 0 <= j < |occ| && occ[j] == (v, p);
      }
    }
  }

  /** The parameter `p` occurring once on each of the vertices `vs`, in order. */
  function Run(vs: seq<Vertex>, p: Param): (r: seq<Occurrence>)
    ensures |r| == |vs| && forall i :: 0 <= i < |vs| ==> r[i].0 == vs[i] && r[i].1 == p
  {
    seq(|vs|, i requires 0 <= i < |vs| => (vs[i], p))
  }

  /** The first `n` occurrences of a run of the same keyword add `n` to its count. */
  lemma {:induction false} CountRun(pre: seq<Occurrence>, vs: seq<Vertex>, p: Param, n: nat)
    requires n <= |vs|
    ensures CountKwd(pre + Run(vs, p)[..n], p.kwd) == CountKwd(pre, p.kwd) + n
  {
    var run := pre + Run(vs, p)[..n];
    if n > 0 {
      assert run[..|run| - 1] == pre + Run(vs, p)[..n - 1] && run[|run| - 1].1 == p;
      CountRun(pre, vs, p, n - 1);
    } else {
      assert run == pre;
    }
  }

  /**
   * Names collide once a keyword ends in a digit: on distinct vertices, a
   * second unbound `x1` and a twelfth unbound `x` are both named `x11`, so
   * `inp_type` merges them. No vertex kind of this model has such a keyword
   * (`KeywordsStem`).
   */
  lemma DigitKeywordsCollide(us: seq<Vertex>, ws: seq<Vertex>)
    requires |us| == 2 && |ws| == 12 && Distinct(us + ws)
    ensures var occ := Run(us, Param("x1", IntT)) + Run(ws, Param("x", IntT));
      ArgName(occ, 1) == ArgName(occ, 13) == "x11"
  {
    var pre: seq<Occurrence> := Run(us, Param("x1", IntT));
    var occ: seq<Occurrence> := pre + Run(ws, Param("x", IntT));
    assert occ[..1] == [pre[0]];
    assert CountKwd(occ[..1], "x1") == 1;
    assert occ[..13] == pre + Run(ws, Param("x", IntT))[..11];
    assert CountKwd(pre, "x") == 0 by {
      assert pre[..1] == [pre[0]] && |pre[..1][..0]| == 0;
      assert CountKwd(pre[..1], "x") == 0;
    }
    CountRun(pre, ws, Param("x", IntT), 11);
    assert NatToString(1) == "1" && NatToString(11) == "11";
  }
}

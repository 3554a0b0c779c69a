/**
  Conjoining the queries of several functions: each function's constants are renamed apart with a
  prefix, so that the conjunction has a model exactly when every query has one.
 */
module Frames {
  import opened Wrappers
  import opened Terms
  import opened Ir
  import opened Encoding
  import opened RunModel
  import opened RunAgrees

  // ---- names as strings ----

  function Digit(d: nat): char
    requires d < 10
  {
    "0123456789"[d]
  }

  function Decimal(n: nat): (s: string)
    ensures |s| > 0
  {
    if n < 10 then [Digit(n)] else Decimal(n / 10) + [Digit(n % 10)]
  }

  lemma DigitInjective(a: nat, b: nat)
    requires a < 10 && b < 10 && Digit(a) == Digit(b)
    ensures a == b
  {
    assert forall i, j :: 0 <= i < j < 10 ==> "0123456789"[i] != "0123456789"[j];
  }

  lemma {:induction false} DecimalInjective(a: nat, b: nat)
    requires Decimal(a) == Decimal(b)
    ensures a == b
  {
    var s, t := Decimal(a), Decimal(b);
    assert s[|s| - 1] == Digit(a % 10) && t[|t| - 1] == Digit(b % 10);
    DigitInjective(a % 10, b % 10);
    assert s[..|s| - 1] == t[..|t| - 1];
    if a >= 10 && b >= 10 {
      DecimalInjective(a / 10, b / 10);
    }
  }

  function Render(x: Name): string {
    match x
    case Guard(b) => "g" + Decimal(b)
    case HavocCond(b) => "hc" + Decimal(b)
    case Param(i) => "p" + Decimal(i)
    case Result(i) => "r" + Decimal(i)
    case Register(v) => "v" + Decimal(v)
    case Framed(prefix, y) => prefix + Render(y)
  }

  /** A function's own name, or one renamed for the spawned function or its helper. */
  predicate FrameName(x: Name) {
    x.Framed? ==> x.prefix in {"s_", "t_"} && !x.name.Framed?
  }

  lemma SameTail(a: string, b: string, x: string)
    requires x + a == x + b
    ensures a == b
  {
    assert (x + a)[|x|..] == a && (x + b)[|x|..] == b;
  }

  lemma RenderOwnInjective(x: Name, y: Name)
    requires !x.Framed? && !y.Framed? && Render(x) == Render(y)
    ensures x == y
  {
    assert Render(x)[0] == Render(y)[0];
    match x
    case Guard(b) => SameTail(Decimal(b), Decimal(y.block), "g"); DecimalInjective(b, y.block);
    case HavocCond(b) => SameTail(Decimal(b), Decimal(y.block), "hc"); DecimalInjective(b, y.block);
    case Param(i) => SameTail(Decimal(i), Decimal(y.index), "p"); DecimalInjective(i, y.index);
    case Result(i) => SameTail(Decimal(i), Decimal(y.index), "r"); DecimalInjective(i, y.index);
    case Register(v) => SameTail(Decimal(v), Decimal(y.id), "v"); DecimalInjective(v, y.id);
  }

  lemma FirstLetter(x: Name)
    requires FrameName(x)
    ensures |Render(x)| > 0
    ensures x.Framed? <==> Render(x)[0] in {'s', 't'}
    ensures x.Framed? ==> (Render(x)[0] == 's' <==> x.prefix == "s_")
  {
  }

  /** The strings of the three frames never clash. */
  lemma RenderInjective(x: Name, y: Name)
    requires FrameName(x) && FrameName(y) && Render(x) == Render(y)
    ensures x == y
  {
    FirstLetter(x);
    FirstLetter(y);
    if x.Framed? {
      SameTail(Render(x.name), Render(y.name), x.prefix);
      RenderOwnInjective(x.name, y.name);
    } else {
      RenderOwnInjective(x, y);
    }
  }

  // ---- renaming and conjoining ----

  /** No name is declared at two sorts. */
  predicate DeclaredOnce(q: Query) {
    forall c, d | c in q.consts && d in q.consts :: c.0 == d.0 ==> c == d
  }

  /** Every variable is a declared constant. */
  ghost predicate ClosedQuery(q: Query) {
    DeclaredOnce(q) && forall t :: t in q.asserts ==> FreeVars(t) <= q.consts
  }

  function Renaming(q: Query, prefix: string): Subst
    requires DeclaredOnce(q)
  {
    map c | c in q.consts :: c.0 := Var(Framed(prefix, c.0), c.1)
  }

  function RenamedAll(ts: seq<Term>, s: Subst): Option<seq<Term>> {
    if ts == [] then Some([])
    else
      var before :- RenamedAll(ts[..|ts| - 1], s);
      var t :- Substitute(ts[|ts| - 1], s);
      Some(before + [t])
  }

  function PrefixedConsts(q: Query, prefix: string): set<(Name, Sort)> {
    set c | c in q.consts :: (Framed(prefix, c.0), c.1)
  }

  /** The query with every declared constant renamed; None if some substitution fails. */
  method Prefixed(q: Query, prefix: string) returns (r: Option<Query>)
    requires DeclaredOnce(q)
    ensures r.Some? <==> RenamedAll(q.asserts, Renaming(q, prefix)).Some?
    ensures r.Some? ==> r.value == Query(PrefixedConsts(q, prefix), RenamedAll(q.asserts, Renaming(q, prefix)).value)
  {
    var renaming := Renaming(q, prefix);
    var asserts := [];
    for k := 0 to |q.asserts|
      invariant RenamedAll(q.asserts[..k], renaming) == Some(asserts)
    {
      assert q.asserts[..k + 1][..k] == q.asserts[..k];
      match Substitute(q.asserts[k], renaming)
      case None =>
        FailsLater(q.asserts, renaming, k + 1);
        return None;
      case Some(t) => asserts := asserts + [t];
    }
    assert q.asserts[..|q.asserts|] == q.asserts;
    return Some(Query(PrefixedConsts(q, prefix), asserts));
  }

  lemma {:induction false} FailsLater(ts: seq<Term>, s: Subst, k: nat)
    requires k <= |ts| && RenamedAll(ts[..k], s).None?
    ensures RenamedAll(ts, s).None?
    decreases |ts| - k
  {
    if k < |ts| {
      assert ts[..k + 1][..k] == ts[..k];
      FailsLater(ts, s, k + 1);
    } else {
      assert ts[..k] == ts;
    }
  }

  function Conjoined(a: Query, b: Query): Query {
    Query(a.consts + b.consts, a.asserts + b.asserts)
  }

  /** Queries over an encoding declare each name once, all of them the function's own. */
  lemma EncodedNames(f: Function, asserts: seq<Term>, block: nat, extra: seq<Term>)
    ensures DeclaredOnce(ReachQuery(f, asserts, block, extra)) && OwnNames(ReachQuery(f, asserts, block, extra))
  {
    hide Declared;
    forall c | c in Declared(f)
      ensures SortOfName(f, c.0) == Some(c.1) && !c.0.Framed?
    {
      DeclaredSort(f, c);
      DeclaredUnframed(f, c);
    }
  }

  lemma DeclaredUnframed(f: Function, c: (Name, Sort))
    requires c in Declared(f)
    ensures !c.0.Framed?
  {
  }

  // ---- separation ----

  lemma RenamingHas(q: Query, prefix: string, c: (Name, Sort))
    requires DeclaredOnce(q) && c in q.consts
    ensures c.0 in Renaming(q, prefix) && Renaming(q, prefix)[c.0] == Var(Framed(prefix, c.0), c.1)
  {
  }

  lemma {:induction false} RenamedAt(q: Query, prefix: string, n: nat)
    requires ClosedQuery(q) && n <= |q.asserts|
    ensures RenamedAll(q.asserts[..n], Renaming(q, prefix)).Some?
    ensures var ts := RenamedAll(q.asserts[..n], Renaming(q, prefix)).value;
            |ts| == n && forall i :: 0 <= i < n ==> Substitute(q.asserts[i], Renaming(q, prefix)) == Some(ts[i])
  {
    if n > 0 {
      RenamedAt(q, prefix, n - 1);
      var t := q.asserts[n - 1];
      assert q.asserts[..n][..n - 1] == q.asserts[..n - 1];
      assert t in q.asserts;
      forall v | v in FreeVars(t)
        ensures v.0 in Renaming(q, prefix) && SortOf(Renaming(q, prefix)[v.0]) == v.1
      {
        RenamingHas(q, prefix, v);
      }
      SubstituteSucceeds(t, Renaming(q, prefix));
    }
  }

  /** The renamed query: always defined for a closed one. */
  function Frame(q: Query, prefix: string): Query
    requires DeclaredOnce(q)
  {
    match RenamedAll(q.asserts, Renaming(q, prefix))
    case Some(ts) => Query(PrefixedConsts(q, prefix), ts)
    case None => Query({}, [BoolLit(false)])
  }

  /** Under m the renamed constants have the values that inner gives the originals. */
  ghost predicate Mirrors(q: Query, prefix: string, m: Model, inner: Model) {
    forall c :: c in q.consts ==> c.0 in inner && Framed(prefix, c.0) in m && m[Framed(prefix, c.0)] == inner[c.0]
  }

  lemma FrameModels(q: Query, prefix: string, m: Model, inner: Model)
    requires ClosedQuery(q) && Mirrors(q, prefix, m, inner)
    ensures Models(m, Frame(q, prefix)) <==> Models(inner, q)
  {
    hide Substitute, Eval, HasSort, RenamedAll, Renaming;
    RenamedAt(q, prefix, |q.asserts|);
    assert q.asserts[..|q.asserts|] == q.asserts;
    var s := Renaming(q, prefix);
    var ts := RenamedAll(q.asserts, s).value;
    forall i | 0 <= i < |ts|
      ensures Holds(ts[i], m) <==> Holds(q.asserts[i], inner)
    {
      assert q.asserts[i] in q.asserts;
      RenamedEval(q, prefix, q.asserts[i], m, inner);
    }
    FrameConsts(q, prefix, m, inner);
    AllHold(ts, q.asserts, m, inner);
  }

  lemma AllHold(ts: seq<Term>, us: seq<Term>, m: Model, inner: Model)
    requires |ts| == |us| && forall i :: 0 <= i < |ts| ==> (Holds(ts[i], m) <==> Holds(us[i], inner))
    ensures (forall t :: t in ts ==> Holds(t, m)) <==> (forall t :: t in us ==> Holds(t, inner))
  {
    hide Eval;
    if forall t :: t in ts ==> Holds(t, m) {
      forall t | t in us
        ensures Holds(t, inner)
      {
        var i :| 0 <= i < |us| && us[i] == t;
        assert ts[i] in ts;
      }
    }
    if forall t :: t in us ==> Holds(t, inner) {
      forall t | t in ts
        ensures Holds(t, m)
      {
        var i :| 0 <= i < |ts| && ts[i] == t;
        assert us[i] in us;
      }
    }
  }

  lemma FrameConsts(q: Query, prefix: string, m: Model, inner: Model)
    requires Mirrors(q, prefix, m, inner)
    ensures (forall c :: c in PrefixedConsts(q, prefix) ==> c.0 in m && HasSort(m[c.0], c.1))
       <==> (forall c :: c in q.consts ==> c.0 in inner && HasSort(inner[c.0], c.1))
  {
    hide HasSort;
    forall c | c in q.consts
      ensures (Framed(prefix, c.0), c.1) in PrefixedConsts(q, prefix)
    {
    }
  }

  lemma RenamedEval(q: Query, prefix: string, t: Term, m: Model, inner: Model)
    requires ClosedQuery(q) && Mirrors(q, prefix, m, inner) && t in q.asserts
    requires Substitute(t, Renaming(q, prefix)).Some?
    ensures Eval(Substitute(t, Renaming(q, prefix)).value, m) == Eval(t, inner)
  {
    hide Substitute, Renaming;
    forall v | v in FreeVars(t)
      ensures v.0 in Renaming(q, prefix) && Eval(Var(v.0, v.1), inner) == Eval(Renaming(q, prefix)[v.0], m)
    {
      RenamingHas(q, prefix, v);
    }
    SubstituteEval(t, Renaming(q, prefix), m, inner);
  }

  /** The query declares nothing under the prefix. */
  ghost predicate Apart(q: Query, prefix: string) {
    forall c :: c in q.consts ==> !(c.0.Framed? && c.0.prefix == prefix)
  }

  ghost function Inner(q: Query, prefix: string, m: Model): Model {
    map c | c in q.consts && Framed(prefix, c.0) in m :: c.0 := m[Framed(prefix, c.0)]
  }

  ghost function Both(q: Query, prefix: string, m: Model, inner: Model): Model {
    m + map x | x in (set c | c in q.consts && c.0 in inner :: Framed(prefix, c.0)) :: inner[x.name]
  }

  lemma BothIs(q: Query, prefix: string, m: Model, inner: Model, x: Name)
    requires !(x.Framed? && x.prefix == prefix)
    ensures x in Both(q, prefix, m, inner) <==> x in m
    ensures x in m ==> Both(q, prefix, m, inner)[x] == m[x]
  {
  }

  lemma BothMirrors(q: Query, prefix: string, m: Model, inner: Model)
    requires forall c :: c in q.consts ==> c.0 in inner
    ensures Mirrors(q, prefix, Both(q, prefix, m, inner), inner)
  {
    forall c | c in q.consts
      ensures Framed(prefix, c.0) in Both(q, prefix, m, inner)
          && Both(q, prefix, m, inner)[Framed(prefix, c.0)] == inner[c.0]
    {
      assert Framed(prefix, c.0) in (set d | d in q.consts && d.0 in inner :: Framed(prefix, d.0));
    }
  }

  /**
    Frames do not meet: a query conjoined with another one renamed apart is satisfiable exactly when
    both are.
   */
  lemma ConjoinSeparates(fq: Query, cq: Query, prefix: string)
    requires ClosedQuery(fq) && ClosedQuery(cq) && Apart(fq, prefix)
    ensures Satisfiable(Conjoined(fq, Frame(cq, prefix))) <==> Satisfiable(fq) && Satisfiable(cq)
  {
    hide Eval, Frame, HasSort;
    var fr := Frame(cq, prefix);
    if Satisfiable(Conjoined(fq, fr)) {
      var m :| Models(m, Conjoined(fq, fr));
      ConjunctModels(fq, fr, m);
      InnerMirrors(cq, prefix, m);
      FrameModels(cq, prefix, m, Inner(cq, prefix, m));
    }
    if Satisfiable(fq) && Satisfiable(cq) {
      var m :| Models(m, fq);
      var inner :| Models(inner, cq);
      var both := Both(cq, prefix, m, inner);
      BothMirrors(cq, prefix, m, inner);
      FrameModels(cq, prefix, both, inner);
      BothKeeps(fq, cq, prefix, m, inner);
      ConjunctModels(fq, fr, both);
    }
  }

  lemma ConjunctModels(a: Query, b: Query, m: Model)
    ensures Models(m, Conjoined(a, b)) <==> Models(m, a) && Models(m, b)
  {
    hide Eval, HasSort;
    var c := Conjoined(a, b);
    assert forall t :: t in c.asserts <==> t in a.asserts || t in b.asserts;
  }

  lemma InnerMirrors(q: Query, prefix: string, m: Model)
    requires DeclaredOnce(q) && Models(m, Frame(q, prefix)) && ClosedQuery(q)
    ensures Mirrors(q, prefix, m, Inner(q, prefix, m))
  {
    hide Eval, HasSort, RenamedAll, Renaming;
    RenamedAt(q, prefix, |q.asserts|);
    assert q.asserts[..|q.asserts|] == q.asserts;
    forall c | c in q.consts
      ensures Framed(prefix, c.0) in m
    {
      assert (Framed(prefix, c.0), c.1) in PrefixedConsts(q, prefix);
    }
  }

  lemma BothKeeps(fq: Query, cq: Query, prefix: string, m: Model, inner: Model)
    requires ClosedQuery(fq) && Apart(fq, prefix) && Models(m, fq)
    ensures Models(Both(cq, prefix, m, inner), fq)
  {
    hide Eval, HasSort, Both;
    var both := Both(cq, prefix, m, inner);
    forall c | c in fq.consts
      ensures c.0 in both && both[c.0] == m[c.0]
    {
      BothIs(cq, prefix, m, inner, c.0);
    }
    forall t | t in fq.asserts
      ensures Holds(t, both)
    {
      forall v | v in FreeVars(t)
        ensures (v.0 in m <==> v.0 in both) && (v.0 in m ==> m[v.0] == both[v.0])
      {
        assert v in fq.consts;
        BothIs(cq, prefix, m, inner, v.0);
      }
      EvalAgrees(t, m, both);
    }
  }

  predicate OwnNames(q: Query) {
    forall c | c in q.consts :: !c.0.Framed?
  }

  lemma FrameClosed(q: Query, prefix: string)
    requires ClosedQuery(q)
    ensures ClosedQuery(Frame(q, prefix))
  {
    hide Eval, HasSort, RenamedAll, Renaming, Substitute;
    RenamedAt(q, prefix, |q.asserts|);
    assert q.asserts[..|q.asserts|] == q.asserts;
    var fr := Frame(q, prefix);
    forall t | t in fr.asserts
      ensures FreeVars(t) <= fr.consts
    {
      var i :| 0 <= i < |fr.asserts| && fr.asserts[i] == t;
      var u := q.asserts[i];
      assert u in q.asserts;
      forall x | x in FreeVars(t)
        ensures x in fr.consts
      {
        forall v | v in FreeVars(u)
          ensures v.0 in Renaming(q, prefix)
        {
          RenamingHas(q, prefix, v);
        }
        var y := SubstituteVars(u, Renaming(q, prefix), x);
        RenamingHas(q, prefix, y);
      }
    }
  }

  /** Spawner, spawned function and helper: three frames, each query satisfiable on its own. */
  lemma ThreeFrames(fq: Query, gq: Query, hq: Query)
    requires ClosedQuery(fq) && ClosedQuery(gq) && ClosedQuery(hq) && OwnNames(fq) && OwnNames(gq)
    ensures Satisfiable(Conjoined(Conjoined(fq, Frame(gq, "s_")), Frame(hq, "t_")))
        <==> Satisfiable(fq) && Satisfiable(gq) && Satisfiable(hq)
  {
    hide Eval, HasSort, Models, Satisfiable;
    FrameClosed(gq, "s_");
    var two := Conjoined(fq, Frame(gq, "s_"));
    FrameNames(gq, "s_");
    assert ClosedQuery(two) && Apart(two, "t_") by {
      forall t | t in two.asserts
        ensures FreeVars(t) <= two.consts
      {
        assert t in fq.asserts || t in Frame(gq, "s_").asserts;
      }
    }
    ConjoinSeparates(fq, gq, "s_");
    ConjoinSeparates(two, hq, "t_");
  }

  lemma FrameNames(q: Query, prefix: string)
    requires DeclaredOnce(q)
    ensures forall c :: c in Frame(q, prefix).consts ==> c.0.Framed? && c.0.prefix == prefix
  {
  }
}

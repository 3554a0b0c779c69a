/**
  Terms see of an address only whether it is nil and whether it equals another one, so exchanging two
  addresses everywhere changes nothing. What a contract can answer depends on its arguments only up
  to that.
 */
module Addresses {
  import opened Wrappers
  import opened MachineInts
  import opened Terms
  import opened Ir
  import opened Summaries
  import opened Runs
  import opened Answers

  function SwapVal(a: nat, b: nat, v: Val): Val {
    match v
    case AddrPtr(x) => AddrPtr(if x == a then b else if x == b then a else x)
    case _ => v
  }

  function SwapModel(a: nat, b: nat, m: Model): Model {
    map x | x in m :: SwapVal(a, b, m[x])
  }

  function SwapVals(a: nat, b: nat, vs: seq<Option<Val>>): seq<Option<Val>> {
    seq(|vs|, i requires 0 <= i < |vs| => if vs[i].Some? then Some(SwapVal(a, b, vs[i].value)) else None)
  }

  lemma SwapInjective(a: nat, b: nat, v: Val, w: Val)
    ensures SwapVal(a, b, v) == SwapVal(a, b, w) <==> v == w
    ensures SwapVal(a, b, SwapVal(a, b, v)) == v
  {
  }

  /** A child's value, with addresses exchanged. */
  ghost predicate SwapsIn(a: nat, b: nat, t: Term, m: Model) {
    Eval(t, SwapModel(a, b, m)) == SwapVal(a, b, Eval(t, m))
  }

  lemma SwapFromChildren(a: nat, b: nat, t: Term, m: Model)
    requires !t.Var? && forall u :: u in Children(t) ==> SwapsIn(a, b, u, m)
    ensures SwapsIn(a, b, t, m)
  {
    hide BinVal, CmpVal, SortOf;
    var cs := Children(t);
    assert |cs| > 0 ==> SwapsIn(a, b, cs[0], m);
    assert |cs| > 1 ==> SwapsIn(a, b, cs[1], m);
    assert |cs| > 2 ==> SwapsIn(a, b, cs[2], m);
    if t.Eq? {
      SwapInjective(a, b, Eval(t.l, m), Eval(t.r, m));
    }
  }

  /** Evaluation commutes with exchanging addresses. */
  lemma {:induction false} SwapEval(a: nat, b: nat, t: Term, m: Model)
    ensures SwapsIn(a, b, t, m)
  {
    if t.Var? {
    } else {
      ChildrenSmaller(t);
      forall u | u in Children(t)
        ensures SwapsIn(a, b, u, m)
      {
        SwapEval(a, b, u, m);
      }
      SwapFromChildren(a, b, t, m);
    }
  }

  lemma SwapInterface(a: nat, b: nat, args: seq<Option<Val>>, results: seq<Option<Val>>)
    ensures Interface(SwapVals(a, b, args), SwapVals(a, b, results)) == SwapModel(a, b, Interface(args, results))
  {
    hide SwapVal;
  }

  lemma SwapSort(a: nat, b: nat, v: Val, s: Sort)
    requires a < Pow2(64) && b < Pow2(64)
    ensures HasSort(SwapVal(a, b, v), s) <==> HasSort(v, s)
  {
  }

  lemma SwapClause(a: nat, b: nat, cl: Clause, args: seq<Option<Val>>, results: seq<Option<Val>>)
    requires a < Pow2(64) && b < Pow2(64) && ClauseMet(cl, args, results)
    ensures ClauseMet(cl, SwapVals(a, b, args), SwapVals(a, b, results))
  {
    hide HasSort, Pow2, Eval;
    var m := Interface(args, results);
    SwapInterface(a, b, args, results);
    if Evaluable(cl.term, SwapModel(a, b, m)) {
      forall v | v in FreeVars(cl.term)
        ensures v.0 in m && HasSort(m[v.0], v.1)
      {
        assert v.0 in SwapModel(a, b, m);
        SwapSort(a, b, m[v.0], v.1);
      }
      SwapEval(a, b, cl.term, m);
    }
  }

  lemma SwapAnswer(a: nat, b: nat, k: Contract, args: seq<Option<Val>>, rs: seq<Option<Sort>>)
    requires a < Pow2(64) && b < Pow2(64) && HasAnswer(k, args, rs)
    ensures HasAnswer(k, SwapVals(a, b, args), rs)
  {
    hide HasSort, Pow2, ClauseMet;
    var results: seq<Option<Val>> :| Answered(k, args, rs, results);
    forall i | 0 <= i < |rs| && rs[i].Some?
      ensures HasSort(SwapVals(a, b, results)[i].value, rs[i].value)
    {
      SwapSort(a, b, results[i].value, rs[i].value);
    }
    forall cl | Stated(k, cl)
      ensures ClauseMet(cl, SwapVals(a, b, args), SwapVals(a, b, results))
    {
      SwapClause(a, b, cl, args, results);
    }
    assert Answered(k, SwapVals(a, b, args), rs, SwapVals(a, b, results));
  }

  // ---- arguments that no term can tell apart ----

  ghost predicate AlikeAt(args: seq<Option<Val>>, args': seq<Option<Val>>, i: nat)
    requires i < |args| == |args'|
  {
    if IsAddress(args[i]) then IsAddress(args'[i]) else args'[i] == args[i]
  }

  ghost predicate IsAddress(v: Option<Val>) {
    v.Some? && v.value.AddrPtr? && v.value.addr < Pow2(64)
  }

  ghost predicate PairAlike(args: seq<Option<Val>>, args': seq<Option<Val>>, i: nat, j: nat)
    requires i < |args| == |args'| && j < |args|
  {
    IsAddress(args[i]) && IsAddress(args[j]) ==> (args[i] == args[j] <==> args'[i] == args'[j])
  }

  ghost predicate Alike(args: seq<Option<Val>>, args': seq<Option<Val>>) {
    && |args| == |args'|
    && (forall i: nat :: i < |args| ==> AlikeAt(args, args', i))
    && forall i: nat, j: nat :: i < |args| && j < |args| ==> PairAlike(args, args', i, j)
  }

  /** Exchanging addresses one after the other turns such arguments into each other. */
  lemma {:induction false} AlikeAnswers(k: Contract, args: seq<Option<Val>>, args': seq<Option<Val>>,
                                        rs: seq<Option<Sort>>, n: nat)
    requires Alike(args, args') && n <= |args| && args[..n] == args'[..n] && HasAnswer(k, args', rs)
    ensures HasAnswer(k, args, rs)
    decreases |args| - n
  {
    hide HasAnswer, Pow2;
    if n == |args| {
      assert args == args[..n] && args' == args'[..n];
    } else if args[n] == args'[n] {
      assert args[..n + 1] == args[..n] + [args[n]] && args'[..n + 1] == args'[..n] + [args'[n]];
      AlikeAnswers(k, args, args', rs, n + 1);
    } else {
      assert AlikeAt(args, args', n);
      var a, b := args[n].value.addr, args'[n].value.addr;
      SwapAnswer(a, b, k, args', rs);
      SwapAlike(args, args', n);
      AlikeAnswers(k, args, SwapVals(a, b, args'), rs, n + 1);
    }
  }

  lemma SwapAlike(args: seq<Option<Val>>, args': seq<Option<Val>>, n: nat)
    requires Alike(args, args') && n < |args| && args[..n] == args'[..n] && IsAddress(args[n]) && IsAddress(args'[n])
    ensures var swapped := SwapVals(args[n].value.addr, args'[n].value.addr, args');
            Alike(args, swapped) && args[..n + 1] == swapped[..n + 1]
  {
    var a, b := args[n].value.addr, args'[n].value.addr;
    var swapped := SwapVals(a, b, args');
    forall i: nat | i < |args|
      ensures AlikeAt(args, swapped, i)
    {
      assert AlikeAt(args, args', i);
    }
    forall i: nat, j: nat | i < |args| && j < |args|
      ensures PairAlike(args, swapped, i, j)
    {
      assert AlikeAt(args, args', i) && AlikeAt(args, args', j) && PairAlike(args, args', i, j);
    }
    forall j: nat | j <= n
      ensures args[j] == swapped[j]
    {
      if j < n {
        assert args[..n][j] == args'[..n][j];
        assert AlikeAt(args, args', j) && PairAlike(args, args', j, n);
      }
    }
  }
}

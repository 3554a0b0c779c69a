/**
  What a call may return when all that is known is the contract. A contract has an answer for some
  arguments if some results of the right sorts make every clause true that callers rely on.
 */
module Answers {
  import opened Wrappers
  import opened Terms
  import opened Ir
  import opened Summaries
  import opened Encoding
  import opened Runs

  /** The sorts of values that runs are about. */
  predicate Modelled(s: Sort) {
    s == BoolSort || s == PtrSort || s in {BvSort(8), BvSort(16), BvSort(32), BvSort(64)}
  }

  ghost predicate ModelledArgs(args: seq<Option<Val>>) {
    forall i :: 0 <= i < |args| && args[i].Some? ==> exists s :: Modelled(s) && HasSort(args[i].value, s)
  }

  predicate ModelledSorts(sorts: seq<Option<Sort>>) {
    |sorts| <= MAX_CALL_RESULT_INDEX + 1 && forall i :: 0 <= i < |sorts| && sorts[i].Some? ==> Modelled(sorts[i].value)
  }

  /** A clause that the encoding asserts at calls where it can be bound. */
  predicate Stated(k: Contract, cl: Clause) {
    cl in k.ensures_ && Usable(k, cl) && SortOf(cl.term) == BoolSort
  }

  ghost predicate FitSorts(vs: seq<Option<Val>>, sorts: seq<Option<Sort>>) {
    && |vs| == |sorts|
    && forall i :: 0 <= i < |sorts| ==>
      (vs[i].Some? <==> sorts[i].Some?) && (vs[i].Some? ==> HasSort(vs[i].value, sorts[i].value))
  }

  ghost predicate ClauseMet(cl: Clause, args: seq<Option<Val>>, results: seq<Option<Val>>) {
    Evaluable(cl.term, Interface(args, results)) ==> Holds(cl.term, Interface(args, results))
  }

  ghost predicate Answered(k: Contract, args: seq<Option<Val>>, sorts: seq<Option<Sort>>, results: seq<Option<Val>>) {
    FitSorts(results, sorts) && forall cl :: Stated(k, cl) ==> ClauseMet(cl, args, results)
  }

  /** Whatever the arguments and the sorts of the results, some results satisfy every clause relied on. */
  ghost predicate Answerable(k: Contract) {
    forall args: seq<Option<Val>>, sorts: seq<Option<Sort>> :: ModelledArgs(args) && ModelledSorts(sorts) ==>
      HasAnswer(k, args, sorts)
  }

  ghost predicate HasAnswer(k: Contract, args: seq<Option<Val>>, sorts: seq<Option<Sort>>) {
    exists results :: Answered(k, args, sorts, results)
  }

  /** Such results, if there are any. */
  ghost function Answer(k: Contract, args: seq<Option<Val>>, sorts: seq<Option<Sort>>): (r: seq<Option<Val>>)
    ensures HasAnswer(k, args, sorts) ==> Answered(k, args, sorts, r)
  {
    if results :| Answered(k, args, sorts, results) then results else []
  }

  /** Entry i of an answer, if it has the sort. */
  function AnswerOr(a: seq<Option<Val>>, i: nat, sort: Sort): (v: Val)
    ensures HasSort(v, sort)
  {
    if i < |a| && a[i].Some? && HasSort(a[i].value, sort) then a[i].value else DefaultOf(sort)
  }

  /** Every function that f calls statically has an answerable contract. */
  ghost predicate CallsAnswerable(f: Function, cs: Contracts) {
    forall s: Site, g: FuncId :: IsSite(f, s) && OpAt(f, s).Call? && OpAt(f, s).callee == Static(g) ==>
      Answerable(ContractOf(cs, g))
  }

  // ---- contracts that have answers ----

  /** Of every sort some value, of pointers one that is not nil. */
  function NonNilDefault(s: Sort): (v: Val)
    ensures s != SeqSort ==> HasSort(v, s)
    ensures v != NilPtr
  {
    if s == PtrSort then AddrPtr(0) else DefaultOf(s)
  }

  function NonNilResults(sorts: seq<Option<Sort>>): seq<Option<Val>> {
    seq(|sorts|, i requires 0 <= i < |sorts| => if sorts[i].Some? then Some(NonNilDefault(sorts[i].value)) else None)
  }

  /** True wherever no pointer result is nil. */
  ghost predicate MetByNonNil(cl: Clause) {
    forall args: seq<Option<Val>>, sorts: seq<Option<Sort>> :: ModelledArgs(args) && ModelledSorts(sorts) ==>
      ClauseMet(cl, args, NonNilResults(sorts))
  }

  /** A contract all of whose clauses are true wherever pointer results are not nil has answers. */
  lemma NonNilAnswers(k: Contract)
    requires forall cl :: Stated(k, cl) ==> MetByNonNil(cl)
    ensures Answerable(k)
  {
    forall args: seq<Option<Val>>, sorts: seq<Option<Sort>> | ModelledArgs(args) && ModelledSorts(sorts)
      ensures HasAnswer(k, args, sorts)
    {
      assert Answered(k, args, sorts, NonNilResults(sorts));
    }
  }
}

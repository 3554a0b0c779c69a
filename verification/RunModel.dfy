/**
  From a run to an assignment. Blocks are visited in topological order; executed instructions give
  their destinations the run's values, all others are computed from what is already assigned, so
  that every defining equation holds whether or not the run came by.
 */
module RunModel {
  import opened Wrappers
  import opened MachineInts
  import opened Graphs
  import opened CutDag
  import opened Dominators
  import opened Terms
  import opened Ir
  import opened Summaries
  import opened Encoding
  import opened Runs
  import opened RunFacts
  import opened Answers

  /** Everything one instance of the theorem is about. */
  datatype Setting = Setting(m: Machine, f: Function, cs: Contracts, dag: Graph, reachable: seq<bool>,
    order: seq<nat>, run: Run)

  ghost predicate ValidSetting(c: Setting) {
    && WellFormed(c.f)
    && CutsBackEdges(Successors(c.f), c.dag)
    && |c.reachable| == |c.f.blocks|
    && (forall b: nat :: b < |c.f.blocks| ==> (c.reachable[b] <==> Reaches(Successors(c.f), 0, b)))
    && ListsReachable(c.dag, c.order) && Forward(c.dag, c.order)
    && IsRun(c.m, c.f, c.dag, c.run)
    && ContractsTrue(c.m, c.cs)
  }

  // ---- names and values correspond ----

  function ValueNamed(f: Function, x: Name): Option<ValueId> {
    match x
    case Param(i) => if i < |f.params| then Some(f.params[i]) else None
    case Register(v) => Some(v)
    case _ => None
  }

  lemma NameRoundTrip(f: Function, v: ValueId)
    ensures ValueNamed(f, NameOf(f, v)) == Some(v)
    ensures NameOf(f, v).Param? || NameOf(f, v).Register?
  {
  }

  function SortOfName(f: Function, x: Name): Option<Sort> {
    match x
    case Guard(_) => Some(BoolSort)
    case HavocCond(_) => Some(BoolSort)
    case _ =>
      var v :- ValueNamed(f, x);
      SortOfValue(f, v)
  }

  ghost predicate ProperModel(f: Function, m: Model) {
    forall x :: x in m && SortOfName(f, x).Some? ==> HasSort(m[x], SortOfName(f, x).value)
  }

  ghost predicate ProperTerm(f: Function, t: Term) {
    WellSorted(t) && forall v :: v in FreeVars(t) ==> SortOfName(f, v.0) == Some(v.1)
  }

  lemma ProperEval(f: Function, t: Term, m: Model)
    requires ProperTerm(f, t) && ProperModel(f, m)
    ensures HasSort(Eval(t, m), SortOf(t))
  {
    EvalSorted(t, m);
  }

  lemma TermProper(f: Function, v: ValueId)
    ensures TermOf(f, v).Some? ==>
        ProperTerm(f, TermOf(f, v).value) && FreeVars(TermOf(f, v).value) == {(NameOf(f, v), SortOfValue(f, v).value)}
  {
    NameRoundTrip(f, v);
  }

  // ---- the items assigned, in order ----

  datatype Item = GuardItem(b: nat) | InstrItem(s: Site)

  function BlockItems(f: Function, b: nat): (r: seq<Item>)
    requires b < |f.blocks|
    ensures |r| == |f.blocks[b].instrs| + 1 && r[0] == GuardItem(b)
    ensures forall i :: 0 <= i < |f.blocks[b].instrs| ==> r[i + 1] == InstrItem((b, i))
  {
    [GuardItem(b)] + seq(|f.blocks[b].instrs|, i requires 0 <= i < |f.blocks[b].instrs| => InstrItem((b, i)))
  }

  predicate InRange(f: Function, order: seq<nat>) {
    forall i :: 0 <= i < |order| ==> order[i] < |f.blocks|
  }

  function Items(f: Function, order: seq<nat>): seq<Item>
    requires InRange(f, order)
  {
    if order == [] then [] else Items(f, order[..|order| - 1]) + BlockItems(f, order[|order| - 1])
  }

  /** Index of the first item of the i-th listed block. */
  function StartOf(f: Function, order: seq<nat>, i: nat): nat
    requires InRange(f, order) && i <= |order|
  {
    |Items(f, order[..i])|
  }

  function ItemIn(f: Function, order: seq<nat>, i: nat, j: nat): Item
    requires InRange(f, order) && i < |order| && j <= |f.blocks[order[i]].instrs|
  {
    if j == 0 then GuardItem(order[i]) else InstrItem((order[i], j - 1))
  }

  lemma {:induction false} ItemsPrefix(f: Function, order: seq<nat>, i: nat)
    requires InRange(f, order) && i <= |order|
    ensures Items(f, order[..i]) <= Items(f, order)
  {
    if i == |order| {
      assert order[..i] == order;
    } else {
      var n := |order| - 1;
      assert order[..n][..i] == order[..i];
      ItemsPrefix(f, order[..n], i);
    }
  }

  lemma ItemsStep(f: Function, order: seq<nat>, i: nat)
    requires InRange(f, order) && i < |order|
    ensures Items(f, order[..i + 1]) == Items(f, order[..i]) + BlockItems(f, order[i])
  {
    assert order[..i + 1][..i] == order[..i];
  }

  lemma ItemsAt(f: Function, order: seq<nat>, i: nat, j: nat)
    requires InRange(f, order) && i < |order| && j <= |f.blocks[order[i]].instrs|
    ensures StartOf(f, order, i) + j < |Items(f, order)|
    ensures Items(f, order)[StartOf(f, order, i) + j] == ItemIn(f, order, i, j)
    ensures StartOf(f, order, i) + 1 + |f.blocks[order[i]].instrs| == StartOf(f, order, i + 1)
    ensures Items(f, order[..i]) <= Items(f, order)
  {
    hide Items;
    ItemsStep(f, order, i);
    ItemsPrefix(f, order, i);
    ItemsPrefix(f, order, i + 1);
  }

  lemma {:induction false} StartsGrow(f: Function, order: seq<nat>, i: nat, i': nat)
    requires InRange(f, order) && i < i' <= |order|
    ensures StartOf(f, order, i) + 1 + |f.blocks[order[i]].instrs| <= StartOf(f, order, i')
  {
    ItemsAt(f, order, i, 0);
    if i + 1 < i' {
      StartsGrow(f, order, i, i' - 1);
      ItemsAt(f, order, i' - 1, 0);
    }
  }

  /** Every index belongs to one listed block. */
  lemma {:induction false} ItemFrom(f: Function, order: seq<nat>, k: nat) returns (i: nat, j: nat)
    requires InRange(f, order) && k < |Items(f, order)|
    ensures i < |order| && j <= |f.blocks[order[i]].instrs|
    ensures k == StartOf(f, order, i) + j && Items(f, order)[k] == ItemIn(f, order, i, j)
  {
    var n := |order| - 1;
    if k >= |Items(f, order[..n])| {
      i, j := n, k - |Items(f, order[..n])|;
    } else {
      i, j := ItemFrom(f, order[..n], k);
      assert order[..n][..i] == order[..i];
    }
  }

  // ---- the assignment ----

  ghost function Final(c: Setting): Regs
    requires IsRun(c.m, c.f, c.dag, c.run)
  {
    RunShape(c.m, c.f, c.dag, c.run);
    LastState(c.run).regs
  }

  function AssignedName(f: Function, item: Item): Option<Name> {
    match item
    case GuardItem(b) => Some(Guard(b))
    case InstrItem(s) =>
      if !IsSite(f, s) then None
      else
        var d :- OpDst(OpAt(f, s));
        if SortOfValue(f, d).Some? then Some(NameOf(f, d)) else None
  }

  /** Loads known to agree share one value: the one an executed member read, if any did. */
  ghost predicate ExecutedPeer(c: Setting, leader: ValueId, s: Site)
    requires IsRun(c.m, c.f, c.dag, c.run) && OrderInRange(c.f, c.order)
  {
    && IsSite(c.f, s) && OpAt(c.f, s).Load? && Executed(c.run, s)
    && LeaderOf(c, s) == leader && SortOfValue(c.f, OpAt(c.f, s).dst) == SortOfValue(c.f, leader)
    && OpAt(c.f, s).dst in Final(c)
  }

  /** The sites walked before s. */
  ghost function WalkedBefore(c: Setting, s: Site): seq<Site>
    requires OrderInRange(c.f, c.order)
    ensures forall x :: x in WalkedBefore(c, s) ==> IsSite(c.f, x)
  {
    var w := Walk(c.f, c.order);
    if k :| 0 <= k < |w| && w[k] == s then w[..k] else w
  }

  /** The load whose value s is equated with, s itself if none is pending. */
  ghost function LeaderOf(c: Setting, s: Site): ValueId
    requires IsSite(c.f, s) && OpAt(c.f, s).Load? && OrderInRange(c.f, c.order)
  {
    var st := Forwarded(c.f, WalkedBefore(c, s));
    var k := KeyOf(st.keys, OpAt(c.f, s).addr);
    if k in st.seen then st.seen[k] else OpAt(c.f, s).dst
  }

  ghost function PeerValue(c: Setting, leader: ValueId, sort: Sort): (v: Val)
    requires IsRun(c.m, c.f, c.dag, c.run) && OrderInRange(c.f, c.order)
    ensures HasSort(v, sort)
  {
    if s :| ExecutedPeer(c, leader, s) then
      var r := Final(c)[OpAt(c.f, s).dst];
      if r.Plain? && HasSort(r.v, sort) then r.v else DefaultOf(sort)
    else DefaultOf(sort)
  }

  /** What an assignment makes of a call's arguments. */
  ghost function ArgsUnder(f: Function, args: seq<ValueId>, m: Model): seq<Option<Val>> {
    seq(|args|, i requires 0 <= i < |args| =>
      match TermOf(f, args[i]) case None => None case Some(t) => Some(Eval(t, m)))
  }

  function ResultSorts(f: Function, dst: Option<ValueId>): seq<Option<Sort>> {
    seq(MAX_CALL_RESULT_INDEX + 1,
      i requires i >= 0 => match ResultTerm(f, dst, i) case None => None case Some(t) => Some(SortOf(t)))
  }

  /** Result i of a call that the run did not get to: as the callee's contract allows. */
  ghost function AnswerAt(c: Setting, s: Site, i: nat, sort: Sort, prev: Model): (v: Val)
    requires IsSite(c.f, s)
    ensures HasSort(v, sort)
  {
    match OpAt(c.f, s)
    case Call(dst, Static(g), args) =>
      AnswerOr(Answer(ContractOf(c.cs, g), ArgsUnder(c.f, args, prev), ResultSorts(c.f, dst)), i, sort)
    case _ => DefaultOf(sort)
  }

  /** The value of a component that was not extracted in the run. */
  ghost function ComponentValue(c: Setting, tuple: ValueId, i: nat, sort: Sort, prev: Model): (v: Val)
    requires IsRun(c.m, c.f, c.dag, c.run)
    ensures HasSort(v, sort)
  {
    if tuple in Final(c) && Final(c)[tuple].Tuple? && i < |Final(c)[tuple].parts| && Final(c)[tuple].parts[i].Plain?
       && HasSort(Final(c)[tuple].parts[i].v, sort)
    then Final(c)[tuple].parts[i].v
    else if s: Site :| DefinesAt(c.f, s, tuple) then AnswerAt(c, s, i, sort, prev)
    else DefaultOf(sort)
  }

  /** A value for the destination of an instruction the run did not execute. */
  ghost function ShadowValue(c: Setting, s: Site, sort: Sort, prev: Model): Val
    requires IsRun(c.m, c.f, c.dag, c.run) && IsSite(c.f, s) && OrderInRange(c.f, c.order)
  {
    var op := OpAt(c.f, s);
    match op
    case Alloc(_) => if sort == PtrSort then AddrPtr(0) else DefaultOf(sort)
    case FieldAddr(_, _, _) => if sort == PtrSort then AddrPtr(0) else DefaultOf(sort)
    case IndexAddr(_, _, _) => if sort == PtrSort then AddrPtr(0) else DefaultOf(sort)
    case Load(_, _) => PeerValue(c, LeaderOf(c, s), sort)
    case Extract(_, t, i) => ComponentValue(c, t, i, sort, prev)
    case Call(_, Static(_), _) => AnswerAt(c, s, 0, sort, prev)
    case _ =>
      match RhsOf(c.f, c.dag, s.0, op)
      case Some(r) => if SortOf(r) == sort then Eval(r, prev) else DefaultOf(sort)
      case None => DefaultOf(sort)
  }

  ghost function ItemValue(c: Setting, item: Item, prev: Model): Val
    requires IsRun(c.m, c.f, c.dag, c.run) && AssignedName(c.f, item).Some? && OrderInRange(c.f, c.order)
  {
    match item
    case GuardItem(b) => Eval(GuardRhs(c.f, c.dag, c.reachable, b), prev)
    case InstrItem(s) =>
      var d := OpDst(OpAt(c.f, s)).value;
      if d in Final(c) && Final(c)[d].Plain? then Final(c)[d].v
      else ShadowValue(c, s, SortOfValue(c.f, d).value, prev)
  }

  ghost function ExternalValue(c: Setting, v: ValueId, sort: Sort): Val
    requires IsRun(c.m, c.f, c.dag, c.run)
  {
    if v in Final(c) && Final(c)[v].Plain? then Final(c)[v].v
    else if ValueOf(c.f, v).kind.ConstKind? && ConstMeaning(ValueOf(c.f, v).kind.c, TypeOf(c.f, v)).Some?
    then ConstMeaning(ValueOf(c.f, v).kind.c, TypeOf(c.f, v)).value
    else DefaultOf(sort)
  }

  /** The side a branch on an unmodelled condition took. */
  ghost predicate TookFirst(c: Setting, b: nat) {
    && b < |c.f.blocks| && |c.f.blocks[b].succs| > 0
    && ((exists k, l ::
           0 <= k < l < |c.run.path| && l == k + 1 && c.run.path[k] == b && c.run.path[l] == c.f.blocks[b].succs[0])
        || (|c.run.path| > 0 && LastBlock(c.run) == b && c.run.next == Some(c.f.blocks[b].succs[0])))
  }

  ghost function BaseValue(c: Setting, x: Name): Val
    requires IsRun(c.m, c.f, c.dag, c.run)
  {
    match x
    case Guard(_) => BoolVal(false)
    case HavocCond(b) => BoolVal(TookFirst(c, b))
    case _ =>
      match ValueNamed(c.f, x)
      case Some(v) => if SortOfValue(c.f, v).Some? then ExternalValue(c, v, SortOfValue(c.f, v).value)
        else BoolVal(false)
      case None => BoolVal(false)
  }

  function DeclaredNames(f: Function): set<Name> {
    set d | d in Declared(f) :: d.0
  }

  ghost function BaseModel(c: Setting): Model
    requires IsRun(c.m, c.f, c.dag, c.run)
  {
    map x | x in DeclaredNames(c.f) :: BaseValue(c, x)
  }

  ghost function ModelAfter(c: Setting, items: seq<Item>): Model
    requires IsRun(c.m, c.f, c.dag, c.run) && OrderInRange(c.f, c.order)
  {
    if items == [] then BaseModel(c)
    else
      var last := items[|items| - 1];
      var prev := ModelAfter(c, items[..|items| - 1]);
      match AssignedName(c.f, last)
      case None => prev
      case Some(x) => prev[x := ItemValue(c, last, prev)]
  }

  ghost function FullModel(c: Setting): Model
    requires IsRun(c.m, c.f, c.dag, c.run) && OrderInRange(c.f, c.order) && InRange(c.f, c.order)
  {
    ModelAfter(c, Items(c.f, c.order))
  }

  // ---- once settled, a name keeps its value ----

  ghost predicate SettledBy(f: Function, items: seq<Item>, k: nat, x: Name) {
    forall j :: k <= j < |items| ==> AssignedName(f, items[j]) != Some(x)
  }

  lemma {:induction false} SettledName(c: Setting, items: seq<Item>, k: nat, x: Name)
    requires IsRun(c.m, c.f, c.dag, c.run) && OrderInRange(c.f, c.order)
    requires k <= |items| && SettledBy(c.f, items, k, x)
    ensures x in ModelAfter(c, items[..k]) <==> x in ModelAfter(c, items)
    ensures x in ModelAfter(c, items) ==> ModelAfter(c, items[..k])[x] == ModelAfter(c, items)[x]
    decreases |items|
  {
    hide IsRun, ContractsTrue, WellTyped, WellShaped, ItemValue, BaseModel, OrderInRange;
    if k == |items| {
      assert items[..k] == items;
    } else {
      var n := |items| - 1;
      assert items[..n][..k] == items[..k];
      assert AssignedName(c.f, items[n]) != Some(x);
      SettledName(c, items[..n], k, x);
    }
  }

  lemma SettledTerm(c: Setting, items: seq<Item>, k: nat, t: Term)
    requires IsRun(c.m, c.f, c.dag, c.run) && OrderInRange(c.f, c.order) && k <= |items|
    requires forall v :: v in FreeVars(t) ==> SettledBy(c.f, items, k, v.0)
    ensures Eval(t, ModelAfter(c, items[..k])) == Eval(t, ModelAfter(c, items))
  {
    forall v | v in FreeVars(t)
      ensures v.0 in ModelAfter(c, items[..k]) <==> v.0 in ModelAfter(c, items)
      ensures v.0 in ModelAfter(c, items) ==> ModelAfter(c, items[..k])[v.0] == ModelAfter(c, items)[v.0]
    {
      SettledName(c, items, k, v.0);
    }
    EvalAgrees(t, ModelAfter(c, items[..k]), ModelAfter(c, items));
  }

  /** The item at index k gives its name the value it computed, for good, if nothing later assigns it. */
  lemma AssignedValue(c: Setting, items: seq<Item>, k: nat, x: Name)
    requires IsRun(c.m, c.f, c.dag, c.run) && OrderInRange(c.f, c.order)
    requires k < |items| && AssignedName(c.f, items[k]) == Some(x) && SettledBy(c.f, items, k + 1, x)
    ensures x in ModelAfter(c, items) && ModelAfter(c, items)[x] == ItemValue(c, items[k], ModelAfter(c, items[..k]))
  {
    assert items[..k + 1][..k] == items[..k] && items[..k + 1][k] == items[k];
    SettledName(c, items, k + 1, x);
  }
}

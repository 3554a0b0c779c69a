/** The assignment respects sorts, and gives every register the run wrote the value it has there. */
module RunAgrees {
  import opened Wrappers
  import opened MachineInts
  import opened Graphs
  import opened CutDag
  import opened Terms
  import opened Ir
  import opened Encoding
  import opened GuardTerms
  import opened Runs
  import opened RunFacts
  import opened RunModel
  import opened RunSettled
  import opened RunValues

  lemma FinalTyped(c: Setting, v: ValueId)
    requires Ready(c) && v in Final(c)
    ensures HasType(Final(c)[v], TypeOf(c.f, v))
    ensures SortOfValue(c.f, v).Some? ==> Final(c)[v].Plain? && HasSort(Final(c)[v].v, SortOfValue(c.f, v).value)
  {
    RunShape(c.m, c.f, c.dag, c.run);
    var last := |c.run.states| - 1;
    RegsTyped(c.m, c.f, c.dag, c.run, last, |c.run.states[last]| - 1, v);
  }

  lemma FinalConst(c: Setting, v: ValueId)
    requires Ready(c) && v in Final(c)
    requires ValueOf(c.f, v).kind.ConstKind? && ConstMeaning(ValueOf(c.f, v).kind.c, TypeOf(c.f, v)).Some?
    ensures Final(c)[v] == Plain(ConstMeaning(ValueOf(c.f, v).kind.c, TypeOf(c.f, v)).value)
  {
    hide ContractsTrue, StrictSsa, WellTyped, CutsBackEdges, Forward, Walk, Items, ModelAfter, Executes, HandsOver,
      Exec;
    RunShape(c.m, c.f, c.dag, c.run);
    var last := |c.run.states| - 1;
    RegsTyped(c.m, c.f, c.dag, c.run, last, |c.run.states[last]| - 1, v);
  }

  // ---- sorts ----

  lemma ExternalSorted(c: Setting, v: ValueId, sort: Sort)
    requires Ready(c) && SortOfValue(c.f, v) == Some(sort)
    ensures HasSort(ExternalValue(c, v, sort), sort)
  {
    if v in Final(c) {
      FinalTyped(c, v);
    }
  }

  lemma BaseProper(c: Setting)
    requires Ready(c)
    ensures ProperModel(c.f, BaseModel(c))
  {
    hide IsRun, ContractsTrue, WellFormed, CutsBackEdges, ListsReachable, Forward, Walk, Items, ModelAfter;
    forall x | x in BaseModel(c) && SortOfName(c.f, x).Some?
      ensures HasSort(BaseModel(c)[x], SortOfName(c.f, x).value)
    {
      match x
      case Guard(_) =>
      case HavocCond(_) =>
      case _ => ExternalSorted(c, ValueNamed(c.f, x).value, SortOfName(c.f, x).value);
    }
  }

  /** The guard equation of a block reads only settled names. */
  lemma GuardRhsSettled(c: Setting, i: nat)
    requires Ready(c) && i < |c.order|
    ensures ProperTerm(c.f, GuardRhs(c.f, c.dag, c.reachable, c.order[i]))
    ensures SortOf(GuardRhs(c.f, c.dag, c.reachable, c.order[i])) == BoolSort
    ensures forall x :: x in FreeVars(GuardRhs(c.f, c.dag, c.reachable, c.order[i])) ==>
              SettledBy(c.f, Items(c.f, c.order), StartOf(c.f, c.order, i), x.0)
  {
    hide Exec, ContractsTrue, StrictSsa, CutsBackEdges, WellTyped;
    var b := c.order[i];
    var edges := Incoming(c.f, c.dag, b, |c.dag|);
    forall n | 0 <= n < |edges|
      ensures ProperTerm(c.f, edges[n]) && SortOf(edges[n]) == BoolSort
      ensures forall x :: x in FreeVars(edges[n]) ==> SettledBy(c.f, Items(c.f, c.order), StartOf(c.f, c.order, i), x.0)
    {
      var p := IncomingIs(c.f, c.dag, b, |c.dag|, edges[n]);
      EdgeGuardSettled(c, p, b, i, 0);
    }
  }

  lemma ShadowSorted(c: Setting, i: nat, j: nat, sort: Sort, prev: Model)
    requires Ready(c) && i < |c.order| && j < |c.f.blocks[c.order[i]].instrs| && sort != SeqSort
        && ProperModel(c.f, prev)
    ensures HasSort(ShadowValue(c, (c.order[i], j), sort, prev), sort)
  {
    hide Items, Walk, ModelAfter, IsRun, ContractsTrue, WellFormed, CutsBackEdges, ListsReachable, Forward, Eval,
      FreeVars, ComponentValue, AnswerAt, PeerValue;
    var op := OpAt(c.f, (c.order[i], j));
    match RhsOf(c.f, c.dag, c.order[i], op)
    case Some(r) =>
      if SortOf(r) == sort {
        RhsSettled(c, i, j);
        ProperEval(c.f, r, prev);
      }
    case None =>
  }

  lemma ItemSorted(c: Setting, k: nat, prev: Model)
    requires Ready(c) && k < |Items(c.f, c.order)| && ProperModel(c.f, prev)
    requires AssignedName(c.f, Items(c.f, c.order)[k]).Some?
    ensures var item := Items(c.f, c.order)[k];
            var x := AssignedName(c.f, item).value;
            SortOfName(c.f, x).Some? && HasSort(ItemValue(c, item, prev), SortOfName(c.f, x).value)
  {
    hide Items, Walk, ModelAfter, IsRun, ContractsTrue, StrictSsa, CutsBackEdges, WellShaped, ShadowValue, AllOpAsserts;
    var item := Items(c.f, c.order)[k];
    var i, j := ItemFrom(c.f, c.order, k);
    if j == 0 {
      GuardRhsSettled(c, i);
      ProperEval(c.f, GuardRhs(c.f, c.dag, c.reachable, c.order[i]), prev);
    } else {
      var d := OpDst(OpAt(c.f, (c.order[i], j - 1))).value;
      NameRoundTrip(c.f, d);
      ShadowSorted(c, i, j - 1, SortOfValue(c.f, d).value, prev);
      if d in Final(c) {
        FinalTyped(c, d);
      }
    }
  }

  lemma ProperUpdate(f: Function, m: Model, x: Name, v: Val)
    requires ProperModel(f, m) && (SortOfName(f, x).Some? ==> HasSort(v, SortOfName(f, x).value))
    ensures ProperModel(f, m[x := v])
  {
  }

  lemma {:induction false} ModelProper(c: Setting, k: nat)
    requires Ready(c) && k <= |Items(c.f, c.order)|
    ensures ProperModel(c.f, ModelAfter(c, Items(c.f, c.order)[..k]))
    ensures DeclaredNames(c.f) <= ModelAfter(c, Items(c.f, c.order)[..k]).Keys
  {
    hide Exec, ContractsTrue, WellFormed, CutsBackEdges, IsRun, Forward, ProperModel, ItemValue, ListsReachable, Walk,
      AssignedName;
    var items := Items(c.f, c.order);
    if k == 0 {
      BaseProper(c);
    } else {
      ModelProper(c, k - 1);
      var prev := ModelAfter(c, items[..k - 1]);
      ModelStep(c, items, k - 1);
      if AssignedName(c.f, items[k - 1]).Some? {
        ItemSorted(c, k - 1, prev);
        ProperUpdate(c.f, prev, AssignedName(c.f, items[k - 1]).value, ItemValue(c, items[k - 1], prev));
      }
    }
  }

  lemma ModelStep(c: Setting, items: seq<Item>, k: nat)
    requires IsRun(c.m, c.f, c.dag, c.run) && OrderInRange(c.f, c.order) && k < |items|
    ensures ModelAfter(c, items[..k + 1]) ==
              var prev := ModelAfter(c, items[..k]);
              if AssignedName(c.f, items[k]).Some?
                then prev[AssignedName(c.f, items[k]).value := ItemValue(c, items[k], prev)] else prev
  {
    assert items[..k + 1][..k] == items[..k] && items[..k + 1][k] == items[k];
  }

  lemma FullProper(c: Setting)
    requires Ready(c)
    ensures ProperModel(c.f, FullModel(c))
    ensures forall d :: d in Declared(c.f) ==> d.0 in FullModel(c) && HasSort(FullModel(c)[d.0], d.1)
  {
    hide IsRun, ContractsTrue, WellFormed, CutsBackEdges, ListsReachable, Forward, Walk, Items, ModelAfter;
    var items := Items(c.f, c.order);
    assert items[..|items|] == items;
    ModelProper(c, |items|);
    forall d | d in Declared(c.f)
      ensures d.0 in FullModel(c) && HasSort(FullModel(c)[d.0], d.1)
    {
      assert d.0 in DeclaredNames(c.f);
      DeclaredSort(c.f, d);
    }
  }

  lemma DeclaredSort(f: Function, d: (Name, Sort))
    requires d in Declared(f)
    ensures SortOfName(f, d.0) == Some(d.1)
  {
    if v :| v in Mentions(f) && SortOfValue(f, v).Some? && d == (NameOf(f, v), SortOfValue(f, v).value) {
      NameRoundTrip(f, v);
    }
  }

  // ---- agreement ----

  lemma DefinesName(f: Function, s: Site, v: ValueId)
    requires DefinesAt(f, s, v) && SortOfValue(f, v).Some?
    ensures AssignedName(f, InstrItem(s)) == Some(NameOf(f, v))
  {
  }

  /** The assignment as it is when instruction j of the i-th listed block is reached. */
  ghost function ModelAt(c: Setting, i: nat, j: nat): Model
    requires IsRun(c.m, c.f, c.dag, c.run) && OrderInRange(c.f, c.order) && InRange(c.f, c.order) && i < |c.order|
  {
    var items, k := Items(c.f, c.order), StartOf(c.f, c.order, i) + j + 1;
    ModelAfter(c, if k <= |items| then items[..k] else items)
  }

  /** What is true of instruction j of the i-th listed block as an item. */
  lemma InstrItemAt(c: Setting, i: nat, j: nat)
    requires IsRun(c.m, c.f, c.dag, c.run) && OrderInRange(c.f, c.order) && InRange(c.f, c.order)
    requires i < |c.order| && j < |c.f.blocks[c.order[i]].instrs|
    ensures var items, k := Items(c.f, c.order), StartOf(c.f, c.order, i) + j + 1;
            k < |items| && items[k] == InstrItem((c.order[i], j)) && ModelAt(c, i, j) == ModelAfter(c, items[..k])
  {
    hide Items, BlockItems, IsRun, ModelAfter, OrderInRange;
    ItemsAt(c.f, c.order, i, j + 1);
  }

  lemma DefinedItem(c: Setting, i: nat, j: nat, v: ValueId)
    requires Ready(c) && i < |c.order| && j < |c.f.blocks[c.order[i]].instrs|
    requires DefinesAt(c.f, (c.order[i], j), v) && SortOfValue(c.f, v).Some?
    ensures AssignedName(c.f, InstrItem((c.order[i], j))) == Some(NameOf(c.f, v))
    ensures NameOf(c.f, v) in FullModel(c)
    ensures FullModel(c)[NameOf(c.f, v)] == ItemValue(c, InstrItem((c.order[i], j)), ModelAt(c, i, j))
  {
    hide IsRun, ContractsTrue, WellFormed, CutsBackEdges, ListsReachable, Forward, Walk, Items, ModelAfter;
    DefinesName(c.f, (c.order[i], j), v);
    SettledAfter(c, i, j, v);
    DefinedItemAt(c, i, j, NameOf(c.f, v));
  }

  lemma DefinedItemAt(c: Setting, i: nat, j: nat, x: Name)
    requires IsRun(c.m, c.f, c.dag, c.run) && OrderInRange(c.f, c.order) && InRange(c.f, c.order)
    requires i < |c.order| && j < |c.f.blocks[c.order[i]].instrs|
    requires AssignedName(c.f, InstrItem((c.order[i], j))) == Some(x)
    requires SettledBy(c.f, Items(c.f, c.order), StartOf(c.f, c.order, i) + j + 2, x)
    ensures x in FullModel(c)
    ensures FullModel(c)[x] == ItemValue(c, InstrItem((c.order[i], j)), ModelAt(c, i, j))
  {
    hide Items, BlockItems, IsRun, ModelAfter;
    InstrItemAt(c, i, j);
    AssignedValue(c, Items(c.f, c.order), StartOf(c.f, c.order, i) + j + 1, x);
  }

  /** A defining instruction gives its destination the run's value, or the shadow value. */
  lemma DefinedValue(c: Setting, i: nat, j: nat, v: ValueId)
    requires Ready(c) && i < |c.order| && j < |c.f.blocks[c.order[i]].instrs|
    requires DefinesAt(c.f, (c.order[i], j), v) && SortOfValue(c.f, v).Some?
    ensures NameOf(c.f, v) in FullModel(c)
    ensures FullModel(c)[NameOf(c.f, v)] ==
              if v in Final(c) && Final(c)[v].Plain? then Final(c)[v].v
              else ShadowValue(c, (c.order[i], j), SortOfValue(c.f, v).value, ModelAt(c, i, j))
  {
    hide IsRun, ContractsTrue, WellFormed, CutsBackEdges, ListsReachable, Forward, Walk, Items, ModelAfter;
    DefinedItem(c, i, j, v);
  }

  lemma ExternalFinal(c: Setting, v: ValueId)
    requires Ready(c) && (forall d: Site :: !DefinesAt(c.f, d, v)) && v in Mentions(c.f) && SortOfValue(c.f, v).Some?
    ensures NameOf(c.f, v) in FullModel(c)
    ensures FullModel(c)[NameOf(c.f, v)] == ExternalValue(c, v, SortOfValue(c.f, v).value)
  {
    hide ContractsTrue, WellTyped, CutsBackEdges, Forward, Walk, Exec, Executes, HandsOver;
    var items := Items(c.f, c.order);
    var i := PositionOf(c, 0);
    assert c.order[0] == 0;
    SettledIf(c, 0, 0, v);
    SettledName(c, items, 0, NameOf(c.f, v));
    assert (NameOf(c.f, v), SortOfValue(c.f, v).value) in Declared(c.f);
    assert NameOf(c.f, v) in DeclaredNames(c.f);
    NameRoundTrip(c.f, v);
    assert items[..0] == [];
  }

  /** The assignment has the run's value of every modelled register the run knows. */
  lemma RunValue(c: Setting, v: ValueId)
    requires Ready(c) && v in Final(c) && SortOfValue(c.f, v).Some? && v in Mentions(c.f)
    ensures NameOf(c.f, v) in FullModel(c) && Final(c)[v] == Plain(FullModel(c)[NameOf(c.f, v)])
  {
    hide IsRun, ContractsTrue, WellFormed, CutsBackEdges, ListsReachable, Forward, Walk, Items, ModelAfter;
    FinalTyped(c, v);
    if d: Site :| DefinesAt(c.f, d, v) {
      var i := PositionOf(c, d.0);
      DefinedValue(c, i, d.1, v);
    } else {
      ExternalFinal(c, v);
    }
  }

  lemma RunTerm(c: Setting, s: Site, v: ValueId)
    requires Ready(c) && IsSite(c.f, s) && v in OpValues(OpAt(c.f, s)) && v in Final(c) && TermOf(c.f, v).Some?
    ensures Final(c)[v] == Plain(Eval(TermOf(c.f, v).value, FullModel(c)))
  {
    hide IsRun, ContractsTrue, WellFormed, CutsBackEdges, ListsReachable, Forward, Walk, Items, ModelAfter;
    Mentioned(c.f, s, v);
    RunValue(c, v);
  }
}

/**
  The encoder as it works: an EncodedFunc whose constants, assertions and value table grow pass by
  pass, each pass proved to append exactly what Encoding says.
 */
module Encoder {
  import opened Wrappers
  import opened Graphs
  import opened CutDag
  import opened Terms
  import opened Ir
  import opened Summaries
  import opened Encoding

  /** Size cap on an encoding, in assertions. */
  const ASSERT_CAP: nat := 50_000

  class EncodedFunc {
    var consts: set<(Name, Sort)>
    var asserts: seq<Term>
    var values: map<ValueId, Term>
    const guards: seq<Term>
    const dagSuccs: Graph

    constructor (n: nat, dag: Graph)
      ensures dagSuccs == dag && asserts == [] && values == map[]
      ensures consts == GuardConsts(n) && |guards| == n && forall b :: 0 <= b < n ==> guards[b] == GuardTerm(b)
    {
      dagSuccs := dag;
      guards := seq(n, b requires 0 <= b < n => GuardTerm(b));
      consts := GuardConsts(n);
      asserts := [];
      values := map[];
    }

    /** The table holds exactly the listed values whose type has a sort, each with its term. */
    ghost predicate Holding(f: Function, vs: seq<ValueId>)
      reads this
    {
      && (forall v :: v in values <==> v in vs && TermOf(f, v).Some?)
      && (forall v :: v in values ==> Some(values[v]) == TermOf(f, v))
      && consts == GuardConsts(|f.blocks|) + ConstsOf(f, vs)
    }

    function Value(v: ValueId): Option<Term>
      reads this
    {
      if v in values then Some(values[v]) else None
    }

    /** Idempotent: a value already in the table adds nothing. */
    method DeclareValue(f: Function, v: ValueId, ghost vs: seq<ValueId>)
      requires Holding(f, vs)
      modifies this
      ensures Holding(f, vs + [v])
      ensures asserts == old(asserts) + if v in vs then [] else DeclareAsserts(f, v)
    {
      hide ConstsOf, NameOf, SliceDerived, ConstTerm, MkEq, SeqInvariant;
      ConstsGrow(f, vs, v);
      if v in values {
        return;
      }
      match TermOf(f, v)
      case None =>
      case Some(t) =>
        consts := consts + {(NameOf(f, v), SortOf(t))};
        if SortOf(t) == SeqSort && !SliceDerived(f, v) {
          asserts := asserts + [SeqInvariant(t)];
        }
        if ValueOf(f, v).kind.ConstKind? {
          match ConstTerm(ValueOf(f, v).kind.c, TypeOf(f, v))
          case None =>
          case Some(lit) =>
            match MkEq(t, lit) {
              case None =>
              case Some(e) => asserts := asserts + [e];
            }
        }
        values := values[v := t];
    }

    method DeclareAll(f: Function, more: seq<ValueId>, ghost vs: seq<ValueId>)
      requires Holding(f, vs) && asserts == DeclarationAsserts(f, vs)
      modifies this
      ensures Holding(f, vs + more) && asserts == DeclarationAsserts(f, vs + more)
    {
      hide DeclareAsserts, DeclarationAsserts, Holding;
      assert vs + more[..0] == vs;
      for k := 0 to |more|
        invariant Holding(f, vs + more[..k]) && asserts == DeclarationAsserts(f, vs + more[..k])
      {
        DeclareValue(f, more[k], vs + more[..k]);
        assert vs + more[..k + 1] == (vs + more[..k]) + [more[k]];
        DeclarationStep(f, vs + more[..k], more[k]);
      }
      assert more[..|more|] == more;
    }

    method DeclareBlock(f: Function, instrs: seq<Op>, ghost vs: seq<ValueId>)
      requires Holding(f, vs) && asserts == DeclarationAsserts(f, vs)
      modifies this
      ensures Holding(f, vs + InstrMentions(instrs)) && asserts == DeclarationAsserts(f, vs + InstrMentions(instrs))
    {
      hide InstrMentions, DeclarationAsserts, OpValues, Holding;
      assert InstrMentions([]) == [] by {
        NoMentions();
      }
      assert vs + InstrMentions(instrs[..0]) == vs;
      for i := 0 to |instrs|
        invariant Holding(f, vs + InstrMentions(instrs[..i]))
            && asserts == DeclarationAsserts(f, vs + InstrMentions(instrs[..i]))
      {
        DeclareAll(f, OpValues(instrs[i]), vs + InstrMentions(instrs[..i]));
        InstrMentionsStep(instrs, i);
        assert vs + InstrMentions(instrs[..i + 1]) == vs + InstrMentions(instrs[..i]) + OpValues(instrs[i]);
      }
      assert instrs[..|instrs|] == instrs;
    }

    /** Parameters, then every value an instruction mentions, then the constants of unmodelled branch conditions. */
    method DeclarePass(f: Function)
      requires asserts == [] && values == map[] && consts == GuardConsts(|f.blocks|)
      modifies this
      ensures asserts == DeclarationAsserts(f, Mentions(f)) && consts == Declared(f)
      ensures forall v :: v in Mentions(f) ==> Value(v) == TermOf(f, v)
    {
      hide DeclarationAsserts, InstrMentions, OpValues;
      assert ConstsOf(f, []) == {};
      NoAsserts(f);
      DeclareAll(f, f.params, []);
      assert [] + f.params == f.params + BlockMentions(f, 0);
      for b := 0 to |f.blocks|
        invariant Holding(f, f.params + BlockMentions(f, b))
        invariant asserts == DeclarationAsserts(f, f.params + BlockMentions(f, b))
      {
        DeclareBlock(f, f.blocks[b].instrs, f.params + BlockMentions(f, b));
        assert f.params + BlockMentions(f, b) + InstrMentions(f.blocks[b].instrs) == f.params + BlockMentions(f, b + 1);
      }
      DeclareHavocs(f);
      DeclaredParts(f);
    }

    method DeclareHavocs(f: Function)
      requires Holding(f, Mentions(f))
      modifies this`consts
      ensures consts == old(consts) + HavocConsts(f, |f.blocks|)
    {
      for b := 0 to |f.blocks|
        invariant consts == old(consts) + HavocConsts(f, b)
      {
        var instrs := f.blocks[b].instrs;
        HavocMentioned(f, b);
        if |instrs| > 0 && instrs[|instrs| - 1].Branch? && instrs[|instrs| - 1].cond !in values {
          consts := consts + {(HavocCond(b), BoolSort)};
        }
      }
    }

    /** Guards of the kept edges, collected per target in block order. */
    method EdgeGuards(f: Function) returns (guardsInto: seq<seq<Term>>)
      requires |dagSuccs| == |f.blocks|
      ensures |guardsInto| == |f.blocks|
      ensures forall s: nat :: s < |f.blocks| ==> guardsInto[s] == Incoming(f, dagSuccs, s, |f.blocks|)
    {
      hide EdgeGuard;
      var n := |f.blocks|;
      var incoming := new seq<Term>[n](_ => []);
      for b := 0 to n
        invariant forall s: nat :: s < n ==> incoming[s] == Incoming(f, dagSuccs, s, b)
      {
        var succs := dagSuccs[b];
        for i := 0 to |succs|
          invariant forall s: nat :: s < n ==>
              incoming[s] == Incoming(f, dagSuccs, s, b) + IncomingFrom(f, b, s, succs[..i])
        {
          assert succs[..i + 1][..i] == succs[..i];
          var s := succs[i];
          if s < n {
            match EdgeGuard(f, b, s)
            case Some(edge) => incoming[s] := incoming[s] + [edge];
            case None =>
          }
        }
        assert succs[..|succs|] == succs;
      }
      guardsInto := incoming[..];
    }

    /** Equates each block's guard with the disjunction of the edges into it. */
    method EncodeGuards(f: Function, reachable: seq<bool>)
      requires |dagSuccs| == |f.blocks|
      modifies this`asserts
      ensures asserts == old(asserts) + GuardAsserts(f, dagSuccs, reachable, |f.blocks|)
    {
      var incoming := EdgeGuards(f);
      for b := 0 to |f.blocks|
        invariant asserts == old(asserts) + GuardAsserts(f, dagSuccs, reachable, b)
      {
        var edges := incoming[b];
        var rhs;
        if b == 0 {
          rhs := BoolLit(true);
        } else if !(b < |reachable| && reachable[b]) || |edges| == 0 {
          rhs := BoolLit(false);
        } else if |edges| == 1 {
          rhs := edges[0];
        } else {
          rhs := Or(edges);
        }
        assert rhs == GuardRhs(f, dagSuccs, reachable, b);
        GuardStep(f, dagSuccs, reachable, b);
        asserts := asserts + [Eq(GuardTerm(b), rhs)];
      }
    }

    method EncodeBlock(f: Function, b: nat)
      requires b < |f.blocks|
      modifies this`asserts
      ensures asserts == old(asserts) + OpAsserts(f, dagSuccs, b, f.blocks[b].instrs)
    {
      hide OpDef;
      var instrs := f.blocks[b].instrs;
      for i := 0 to |instrs|
        invariant asserts == old(asserts) + OpAsserts(f, dagSuccs, b, instrs[..i])
      {
        OpStep(f, dagSuccs, b, instrs, i);
        match OpDef(f, dagSuccs, b, instrs[i])
        case Some(def) => asserts := asserts + [def];
        case None =>
      }
      assert instrs[..|instrs|] == instrs;
    }

    /** Defining equalities of modelled instructions, block by block. */
    method EncodeOps(f: Function)
      modifies this`asserts
      ensures asserts == old(asserts) + AllOpAsserts(f, dagSuccs, |f.blocks|)
    {
      hide OpDef, OpAsserts;
      for b := 0 to |f.blocks|
        invariant asserts == old(asserts) + AllOpAsserts(f, dagSuccs, b)
      {
        EncodeBlock(f, b);
      }
    }

    /** One instruction of the forwarding walk; only a load of an address already pending asserts anything. */
    /** A load of an address with an earlier load pending is equated with it; the first one starts waiting. */
    method ForwardLoad(f: Function, op: Op, k: AddrKey, ghost st: Forwarding, seen: map<AddrKey, ValueId>)
        returns (seen': map<AddrKey, ValueId>)
      requires op.Load? && Value(op.dst) == TermOf(f, op.dst) && k == KeyOf(st.keys, op.addr) && st.seen == seen
      requires forall k :: k in seen ==> Value(seen[k]) == TermOf(f, seen[k])
      modifies this`asserts
      ensures seen' == if k in seen then seen else seen[k := op.dst]
      ensures asserts == old(asserts) + ForwardAssert(f, st, op)
    {
      hide TermOf, MkEq, KeyOf;
      seen' := seen;
      if k !in seen {
        seen' := seen[k := op.dst];
      } else if Value(op.dst).Some? && Value(seen[k]).Some? {
        match MkEq(Value(op.dst).value, Value(seen[k]).value)
        case Some(eq) => asserts := asserts + [eq];
        case None =>
      }
    }

    method ForwardInstr(f: Function, op: Op, keys: map<ValueId, AddrKey>, depths: map<ValueId, nat>,
                        seen: map<AddrKey, ValueId>)
        returns (keys': map<ValueId, AddrKey>, depths': map<ValueId, nat>, seen': map<AddrKey, ValueId>)
      requires op.Load? ==> Value(op.dst) == TermOf(f, op.dst)
      requires forall k :: k in seen ==> Value(seen[k]) == TermOf(f, seen[k])
      modifies this`asserts
      ensures Forwarding(keys', depths', seen') == ForwardStep(Forwarding(keys, depths, seen), op)
      ensures asserts == old(asserts) + ForwardAssert(f, Forwarding(keys, depths, seen), op)
      ensures forall k :: k in seen' ==> Value(seen'[k]) == TermOf(f, seen'[k])
    {
      hide TermOf, KeyOf, DepthOf, ForwardAssert;
      keys', depths', seen' := keys, depths, seen;
      if !op.Load? {
        NothingForwarded(f, Forwarding(keys, depths, seen), op);
      }
      match op
      case Assign(dst, src) =>
        if src in keys {
          keys' := keys[dst := keys[src]];
          if src in depths {
            depths' := depths[dst := depths[src]];
          }
        }
      case FieldAddr(dst, base, field) =>
        if DepthOf(depths, base) >= MAX_ADDR_KEY_DEPTH {
          keys', depths' := keys[dst := Root(dst)], depths[dst := 0];
        } else {
          keys', depths' := keys[dst := FieldOf(KeyOf(keys, base), field)], depths[dst := DepthOf(depths, base) + 1];
        }
      case IndexAddr(dst, base, index) =>
        if DepthOf(depths, base) >= MAX_ADDR_KEY_DEPTH {
          keys', depths' := keys[dst := Root(dst)], depths[dst := 0];
        } else {
          keys', depths' := keys[dst := IndexOf(KeyOf(keys, base), index)], depths[dst := DepthOf(depths, base) + 1];
        }
      case Load(dst, addr) =>
        seen' := ForwardLoad(f, op, KeyOf(keys, addr), Forwarding(keys, depths, seen), seen);
      case Store(_, _) => seen' := map[];
      case Havoc(None) => seen' := map[];
      case _ =>
    }

    method ForwardBlock(f: Function, b: nat, keys: map<ValueId, AddrKey>, depths: map<ValueId, nat>,
                        seen: map<AddrKey, ValueId>,
                        ghost start: seq<Term>, ghost before: seq<Site>)
        returns (keys': map<ValueId, AddrKey>, depths': map<ValueId, nat>, seen': map<AddrKey, ValueId>)
      requires b < |f.blocks| && forall s :: s in before + BlockSites(f, b) ==> IsSite(f, s)
      requires forall v :: v in Mentions(f) ==> Value(v) == TermOf(f, v)
      requires forall k :: k in seen ==> Value(seen[k]) == TermOf(f, seen[k])
      requires Forwarding(keys, depths, seen) == Forwarded(f, before)
      requires asserts == start + ForwardAsserts(f, before)
      modifies this`asserts
      ensures Forwarding(keys', depths', seen') == Forwarded(f, before + BlockSites(f, b))
      ensures asserts == start + ForwardAsserts(f, before + BlockSites(f, b))
      ensures forall k :: k in seen' ==> Value(seen'[k]) == TermOf(f, seen'[k])
    {
      hide Forwarded, ForwardAsserts, ForwardStep, ForwardAssert, Mentions, OpValues, TermOf;
      keys', depths', seen' := keys, depths, seen;
      var instrs := f.blocks[b].instrs;
      ghost var sites := before;
      for i := 0 to |instrs|
        invariant sites == before + BlockSites(f, b)[..i] && forall s :: s in sites ==> IsSite(f, s)
        invariant Forwarding(keys', depths', seen') == Forwarded(f, sites)
        invariant asserts == start + ForwardAsserts(f, sites)
        invariant forall k :: k in seen' ==> Value(seen'[k]) == TermOf(f, seen'[k])
      {
        LoadMentioned(f, (b, i));
        ForwardOne(f, sites, (b, i));
        keys', depths', seen' := ForwardInstr(f, instrs[i], keys', depths', seen');
        sites := sites + [(b, i)];
      }
      assert sites == before + BlockSites(f, b);
    }

    /** Walks the blocks in topological order, equating loads of one address with no write in between. */
    method EncodeLoadForwarding(f: Function) returns (ghost order: seq<nat>)
      requires |dagSuccs| == |f.blocks|
      requires forall v :: v in Mentions(f) ==> Value(v) == TermOf(f, v)
      modifies this`asserts
      ensures order == OrderOf(dagSuccs) && OrderInRange(f, order)
      ensures asserts == old(asserts) + ForwardAsserts(f, Walk(f, order))
    {
      hide Forwarded, ForwardAsserts, ForwardStep, ForwardAssert, Mentions, OpValues, Walk, TermOf, OrderOf,
        ListsReachable, Forward;
      var blocks := TopoOrder(dagSuccs);
      order := blocks;
      ListedInRange(dagSuccs, order);
      WalkInRange(f, order);
      var keys, depths, seen := map[], map[], map[];
      NothingWalked(f);
      assert order[..0] == [];
      for k := 0 to |blocks|
        invariant Forwarding(keys, depths, seen) == Forwarded(f, Walk(f, order[..k]))
        invariant asserts == old(asserts) + ForwardAsserts(f, Walk(f, order[..k]))
        invariant forall key :: key in seen ==> Value(seen[key]) == TermOf(f, seen[key])
      {
        WalkStep(f, order, k);
        keys, depths, seen := ForwardBlock(f, blocks[k], keys, depths, seen, old(asserts), Walk(f, order[..k]));
      }
      assert order[..|order|] == order;
    }

    /** Result slots of a call, filled by the destination itself or by the first extraction of each component. */
    method CallResultTerms(f: Function, dst: Option<ValueId>) returns (out: seq<Option<Term>>)
      requires forall v :: v in Mentions(f) ==> Value(v) == TermOf(f, v)
      requires dst.Some? ==> Value(dst.value) == TermOf(f, dst.value)
      ensures forall i: nat :: SlotOf(out, i) == ResultTerm(f, dst, i)
    {
      out := [];
      match dst
      case None =>
      case Some(d) =>
        match Value(d) {
          case Some(t) => out := [Some(t)];
          case None =>
            forall i: nat
              ensures FirstExtract(f, d, i, 0, []) == None
            {
              ResultFromExtracts(f, d, i);
            }
            for b := 0 to |f.blocks|
              invariant forall i: nat :: SlotOf(out, i) == FirstExtract(f, d, i, b, [])
            {
              out := CollectExtracts(f, d, b, out);
            }
            forall i: nat
              ensures SlotOf(out, i) == ResultTerm(f, dst, i)
            {
              ResultFromExtracts(f, d, i);
            }
        }
    }

    method CollectExtracts(f: Function, d: ValueId, b: nat, slots: seq<Option<Term>>) returns (out: seq<Option<Term>>)
      requires b < |f.blocks| && forall v :: v in Mentions(f) ==> Value(v) == TermOf(f, v)
      requires forall i: nat :: SlotOf(slots, i) == FirstExtract(f, d, i, b, [])
      ensures forall i: nat :: SlotOf(out, i) == FirstExtract(f, d, i, b + 1, [])
    {
      hide Mentions, OpValues, TermOf;
      out := slots;
      var instrs := f.blocks[b].instrs;
      for j := 0 to |instrs|
        invariant forall i: nat :: SlotOf(out, i) == FirstExtract(f, d, i, b, instrs[..j])
      {
        ExtractMentioned(f, (b, j));
        ExtractSteps(f, d, b, instrs, j);
        match instrs[j]
        case Extract(ed, tuple, index) =>
          if tuple == d && index <= MAX_CALL_RESULT_INDEX {
            out := Filled(out, index, Value(ed));
          }
        case _ =>
      }
      assert instrs[..|instrs|] == instrs;
      BlockExtracted(f, d, b);
    }

    /** Binds one callee's usable clauses at a call and gates them on the calling block. */
    method EncodeCall(f: Function, cs: Contracts, b: nat, op: Op)
      requires b < |f.blocks| && |guards| == |f.blocks| && guards[b] == GuardTerm(b)
      requires forall v :: v in Mentions(f) ==> Value(v) == TermOf(f, v)
      requires forall v :: v in OpValues(op) ==> v in Mentions(f)
      modifies this`asserts
      ensures asserts == old(asserts) + CallAsserts(f, cs, b, op)
    {
      if !(op.Call? && op.callee.Static?) {
        return;
      }
      var c := ContractOf(cs, op.callee.func);
      var usable := UsableOf(c, c.ensures_);
      GatedUsable(f, b, c, c.ensures_, op.args, op.result);
      if usable == [] {
        return;
      }
      CallValues(op);
      var args := seq(|op.args|, i requires 0 <= i < |op.args| reads this => Value(op.args[i]));
      assert args == TermsOf(f, op.args);
      var results := CallResultTerms(f, op.result);
      SameSlots(f, op.result, results);
      EncodeClauses(f, b, usable, args, results, op.args, op.result);
    }

    method EncodeClauses(f: Function, b: nat, usable: seq<Clause>, args: seq<Option<Term>>, results: seq<Option<Term>>,
                         ghost argIds: seq<ValueId>, ghost dst: Option<ValueId>)
      requires b < |guards| && guards[b] == GuardTerm(b) && args == TermsOf(f, argIds)
      requires forall i: nat :: SlotOf(results, i) == SlotOf(ResultTerms(f, dst), i)
      modifies this`asserts
      ensures asserts == old(asserts) + GatedList(f, b, usable, argIds, dst)
    {
      hide Bind, TermsOf, ResultTerms, SlotOf;
      for k := 0 to |usable|
        invariant asserts == old(asserts) + GatedList(f, b, usable[..k], argIds, dst)
      {
        assert usable[..k + 1][..k] == usable[..k];
        BindSame(usable[k].term, args, results, ResultTerms(f, dst));
        match Bind(usable[k].term, args, results)
        case None =>
        case Some(bound) =>
          match MkOr([Not(guards[b]), bound]) {
            case Some(gated) => asserts := asserts + [gated];
            case None =>
          }
      }
      assert usable[..|usable|] == usable;
    }

    method EncodeCallEnsures(f: Function, cs: Contracts)
      requires |guards| == |f.blocks| && forall b :: 0 <= b < |guards| ==> guards[b] == GuardTerm(b)
      requires forall v :: v in Mentions(f) ==> Value(v) == TermOf(f, v)
      modifies this`asserts
      ensures asserts == old(asserts) + AllCallAsserts(f, cs, |f.blocks|)
    {
      hide CallAsserts, Mentions, OpValues, TermOf;
      for b := 0 to |f.blocks|
        invariant asserts == old(asserts) + AllCallAsserts(f, cs, b)
      {
        var instrs := f.blocks[b].instrs;
        for i := 0 to |instrs|
          invariant asserts == old(asserts) + AllCallAsserts(f, cs, b) + BlockCallAsserts(f, cs, b, instrs[..i])
        {
          assert instrs[..i + 1][..i] == instrs[..i];
          forall v | v in OpValues(instrs[i])
            ensures v in Mentions(f)
          {
            Mentioned(f, (b, i), v);
          }
          EncodeCall(f, cs, b, instrs[i]);
        }
        assert instrs[..|instrs|] == instrs;
      }
    }

    /** A finished encoding of f. */
    ghost predicate Encodes(f: Function, cs: Contracts)
      reads this
    {
      && asserts == EncodingOf(f, cs) && consts == Declared(f) && dagSuccs == KeptGraph(f)
      && |guards| == |f.blocks| && (forall b :: 0 <= b < |guards| ==> guards[b] == GuardTerm(b))
      && forall v :: v in Mentions(f) ==> Value(v) == TermOf(f, v)
    }

    /** Everything asserted so far, the block's guard if it has one, and the caller's conjuncts. */
    method ReachQuery(ghost f: Function, ghost cs: Contracts, block: nat, extra: seq<Term>) returns (q: Query)
      requires Encodes(f, cs)
      ensures q == Encoding.ReachQuery(f, EncodingOf(f, cs), block, extra)
    {
      hide EncodingOf, Declared, KeptGraph;
      var all := asserts;
      if block < |guards| {
        all := all + [guards[block]];
      }
      q := Query(consts, all + extra);
    }
  }

  /** The control flow the encoder sees: loops cut open. */
  ghost function KeptGraph(f: Function): (dag: Graph)
    ensures |dag| == |f.blocks|
  {
    CutOf(Successors(f))
  }

  ghost function ReachableBlocks(f: Function): (r: seq<bool>)
    ensures |r| == |f.blocks| && forall b: nat :: b < |f.blocks| ==> (r[b] <==> Reaches(Successors(f), 0, b))
  {
    seq(|f.blocks|, b requires 0 <= b < |f.blocks| => Reaches(Successors(f), 0, b))
  }

  ghost function BlockOrder(f: Function): (order: seq<nat>)
    ensures OrderInRange(f, order)
  {
    OrderOfMeaning(KeptGraph(f));
    ListedInRange(KeptGraph(f), OrderOf(KeptGraph(f)));
    WalkInRange(f, OrderOf(KeptGraph(f)));
    OrderOf(KeptGraph(f))
  }

  /** Everything asserted for a body, given what its callees promise. */
  ghost function EncodingOf(f: Function, cs: Contracts): seq<Term> {
    Encode(f, cs, KeptGraph(f), ReachableBlocks(f), BlockOrder(f))
  }

  /** Encodes a body; None when the encoding is over the cap. */
  method EncodeFunc(f: Function, cs: Contracts) returns (enc: Option<EncodedFunc>)
    ensures enc.Some? <==> |EncodingOf(f, cs)| <= ASSERT_CAP
    ensures enc.Some? ==> fresh(enc.value) && enc.value.Encodes(f, cs)
  {
    hide Declared, Mentions, DeclarationAsserts, GuardAsserts, AllOpAsserts, ForwardAsserts, AllCallAsserts, TermOf,
      Walk;
    hide CutOf, OrderOf, CutsBackEdges;
    var cut, visited := CutBackEdges(Successors(f));
    assert visited == ReachableBlocks(f);
    var e := new EncodedFunc(|f.blocks|, cut);
    e.DeclarePass(f);
    e.EncodeGuards(f, visited);
    e.EncodeOps(f);
    ghost var order := e.EncodeLoadForwarding(f);
    e.EncodeCallEnsures(f, cs);
    enc := if |e.asserts| > ASSERT_CAP then None else Some(e);
  }

  // ---- one step of each pass ----

  lemma NoMentions()
    ensures InstrMentions([]) == []
  {
  }

  lemma NoAsserts(f: Function)
    ensures DeclarationAsserts(f, []) == []
  {
  }

  lemma InstrMentionsStep(instrs: seq<Op>, i: nat)
    requires i < |instrs|
    ensures InstrMentions(instrs[..i + 1]) == InstrMentions(instrs[..i]) + OpValues(instrs[i])
  {
    hide OpValues;
    assert instrs[..i + 1][..i] == instrs[..i];
  }

  lemma GuardStep(f: Function, dag: Graph, reachable: seq<bool>, b: nat)
    ensures GuardAsserts(f, dag, reachable, b + 1) ==
              GuardAsserts(f, dag, reachable, b) + [Eq(GuardTerm(b), GuardRhs(f, dag, reachable, b))]
  {
    hide GuardRhs;
  }

  lemma OpStep(f: Function, dag: Graph, b: nat, instrs: seq<Op>, i: nat)
    requires b < |f.blocks| && i < |instrs|
    ensures OpAsserts(f, dag, b, instrs[..i + 1]) == OpAsserts(f, dag, b, instrs[..i])
        + OptTermSeq(OpDef(f, dag, b, instrs[i]))
  {
    hide OpDef;
    assert instrs[..i + 1][..i] == instrs[..i];
  }

  lemma DeclaredParts(f: Function)
    ensures Declared(f) == GuardConsts(|f.blocks|) + ConstsOf(f, Mentions(f)) + HavocConsts(f, |f.blocks|)
  {
  }

  // ---- walking blocks ----

  lemma ListedInRange(g: Graph, order: seq<nat>)
    requires ListsReachable(g, order)
    ensures forall i :: 0 <= i < |order| ==> order[i] < |g|
  {
    forall i | 0 <= i < |order|
      ensures order[i] < |g|
    {
      assert order[i] in order;
      ReachesInRange(g, 0, order[i]);
    }
  }

  lemma {:induction false} WalkInRange(f: Function, order: seq<nat>)
    requires forall i :: 0 <= i < |order| ==> order[i] < |f.blocks|
    ensures forall s :: s in Walk(f, order) ==> IsSite(f, s)
    ensures forall k, s :: 0 <= k <= |order| && s in Walk(f, order[..k]) ==> IsSite(f, s)
    decreases |order|
  {
    if order != [] {
      WalkInRange(f, order[..|order| - 1]);
      assert forall k :: 0 <= k < |order| ==> order[..|order| - 1][..k] == order[..k];
      assert order[..|order|] == order;
    }
  }

  lemma NothingWalked(f: Function)
    ensures Walk(f, []) == [] && Forwarded(f, []) == Forwarding(map[], map[], map[]) && ForwardAsserts(f, []) == []
  {
  }

  lemma WalkStep(f: Function, order: seq<nat>, k: nat)
    requires k < |order| && order[k] < |f.blocks|
    ensures Walk(f, order[..k + 1]) == Walk(f, order[..k]) + BlockSites(f, order[k])
    ensures forall s :: s in BlockSites(f, order[k]) ==> IsSite(f, s)
  {
    assert order[..k + 1][..k] == order[..k];
  }

  lemma ForwardOne(f: Function, sites: seq<Site>, s: Site)
    requires IsSite(f, s) && forall x :: x in sites ==> IsSite(f, x)
    ensures Forwarded(f, sites + [s]) == ForwardStep(Forwarded(f, sites), OpAt(f, s))
    ensures ForwardAsserts(f, sites + [s]) == ForwardAsserts(f, sites)
        + ForwardAssert(f, Forwarded(f, sites), OpAt(f, s))
  {
    hide ForwardStep, ForwardAssert;
    assert (sites + [s])[..|sites|] == sites;
  }

  lemma LoadMentioned(f: Function, s: Site)
    requires IsSite(f, s)
    ensures OpAt(f, s).Load? ==> OpAt(f, s).dst in Mentions(f)
  {
    if OpAt(f, s).Load? {
      Mentioned(f, s, OpAt(f, s).dst);
    }
  }

  // ---- call results ----

  function SlotOf(slots: seq<Option<Term>>, i: nat): Option<Term> {
    if i < |slots| then slots[i] else None
  }

  function Resized(slots: seq<Option<Term>>, n: nat): (r: seq<Option<Term>>)
    ensures |r| >= n && forall i: nat :: SlotOf(r, i) == SlotOf(slots, i)
  {
    if |slots| >= n then slots else slots + seq(n - |slots|, i requires 0 <= i < n - |slots| => None)
  }

  /** Grows the slots to hold n, and fills slot n if it is empty. */
  function Filled(slots: seq<Option<Term>>, n: nat, t: Option<Term>): (r: seq<Option<Term>>)
    ensures forall i: nat :: SlotOf(r, i) == if i == n && SlotOf(slots, i).None? then t else SlotOf(slots, i)
  {
    var grown := Resized(slots, n + 1);
    assert SlotOf(grown, n) == SlotOf(slots, n);
    if grown[n].None? then grown[n := t] else grown
  }

  /** The term of the first extraction of component i, among the first b blocks and some instructions more. */
  ghost function FirstExtract(f: Function, d: ValueId, i: nat, b: nat, instrs: seq<Op>): Option<Term>
    requires b <= |f.blocks|
  {
    match ExtractOf(f, d, i, b)
    case Some(v) => TermOf(f, v)
    case None =>
      var v :- ExtractIn(f, instrs, d, i);
      TermOf(f, v)
  }

  lemma {:induction false} ExtractHasTerm(f: Function, instrs: seq<Op>, d: ValueId, i: nat)
    ensures ExtractIn(f, instrs, d, i).Some? ==> TermOf(f, ExtractIn(f, instrs, d, i).value).Some?
  {
    hide TermOf;
    if instrs != [] {
      ExtractHasTerm(f, instrs[..|instrs| - 1], d, i);
    }
  }

  lemma {:induction false} ExtractOfHasTerm(f: Function, d: ValueId, i: nat, b: nat)
    requires b <= |f.blocks|
    ensures ExtractOf(f, d, i, b).Some? ==> TermOf(f, ExtractOf(f, d, i, b).value).Some?
  {
    hide TermOf, ExtractIn;
    if b > 0 {
      ExtractOfHasTerm(f, d, i, b - 1);
      ExtractHasTerm(f, f.blocks[b - 1].instrs, d, i);
    }
  }

  lemma ExtractStep(f: Function, d: ValueId, i: nat, b: nat, instrs: seq<Op>, j: nat)
    requires b < |f.blocks| && j < |instrs|
    ensures FirstExtract(f, d, i, b, instrs[..j + 1]) ==
              if FirstExtract(f, d, i, b, instrs[..j]).Some? then FirstExtract(f, d, i, b, instrs[..j])
              else if ExtractsInto(instrs[j], d, i) then TermOf(f, instrs[j].dst) else None
  {
    hide TermOf;
    assert instrs[..j + 1][..j] == instrs[..j];
    ExtractOfHasTerm(f, d, i, b);
    ExtractHasTerm(f, instrs[..j], d, i);
  }

  predicate ExtractsInto(op: Op, d: ValueId, i: nat) {
    op.Extract? && op.tuple == d && op.component == i && i <= MAX_CALL_RESULT_INDEX
  }

  lemma ExtractSteps(f: Function, d: ValueId, b: nat, instrs: seq<Op>, j: nat)
    requires b < |f.blocks| && j < |instrs|
    ensures forall i: nat :: FirstExtract(f, d, i, b, instrs[..j + 1]) ==
              if FirstExtract(f, d, i, b, instrs[..j]).Some? then FirstExtract(f, d, i, b, instrs[..j])
              else if ExtractsInto(instrs[j], d, i) then TermOf(f, instrs[j].dst) else None
  {
    forall i: nat
      ensures FirstExtract(f, d, i, b, instrs[..j + 1]) ==
                if FirstExtract(f, d, i, b, instrs[..j]).Some? then FirstExtract(f, d, i, b, instrs[..j])
                else if ExtractsInto(instrs[j], d, i) then TermOf(f, instrs[j].dst) else None
    {
      ExtractStep(f, d, i, b, instrs, j);
    }
  }

  lemma BlockExtracted(f: Function, d: ValueId, b: nat)
    requires b < |f.blocks|
    ensures forall i: nat :: FirstExtract(f, d, i, b + 1, []) == FirstExtract(f, d, i, b, f.blocks[b].instrs)
  {
    hide TermOf;
    forall i: nat
      ensures FirstExtract(f, d, i, b + 1, []) == FirstExtract(f, d, i, b, f.blocks[b].instrs)
    {
      assert ExtractIn(f, [], d, i) == None;
    }
  }

  lemma ResultFromExtracts(f: Function, d: ValueId, i: nat)
    requires TermOf(f, d).None?
    ensures ResultTerm(f, Some(d), i) == FirstExtract(f, d, i, |f.blocks|, [])
    ensures FirstExtract(f, d, i, 0, []) == None
  {
    assert ExtractIn(f, [], d, i) == None;
  }

  lemma ExtractMentioned(f: Function, s: Site)
    requires IsSite(f, s)
    ensures OpAt(f, s).Extract? ==> OpAt(f, s).dst in Mentions(f)
  {
    if OpAt(f, s).Extract? {
      Mentioned(f, s, OpAt(f, s).dst);
    }
  }

  lemma CallValues(op: Op)
    requires op.Call?
    ensures forall a :: a in op.args ==> a in OpValues(op)
    ensures op.result.Some? ==> op.result.value in OpValues(op)
  {
  }

  /** Slots beyond the cap are empty either way. */
  lemma SameSlots(f: Function, dst: Option<ValueId>, results: seq<Option<Term>>)
    requires forall i: nat :: SlotOf(results, i) == ResultTerm(f, dst, i)
    ensures forall i: nat :: SlotOf(results, i) == SlotOf(ResultTerms(f, dst), i)
  {
    forall i: nat
      ensures SlotOf(results, i) == SlotOf(ResultTerms(f, dst), i)
    {
      if i > MAX_CALL_RESULT_INDEX && dst.Some? && TermOf(f, dst.value).None? {
        NothingBeyond(f, dst.value, i, |f.blocks|);
      }
    }
  }

  lemma {:induction false} NothingBeyond(f: Function, d: ValueId, i: nat, b: nat)
    requires b <= |f.blocks| && i > MAX_CALL_RESULT_INDEX
    ensures ExtractOf(f, d, i, b) == None
  {
    if b > 0 {
      NothingBeyond(f, d, i, b - 1);
      NothingBeyondIn(f, f.blocks[b - 1].instrs, d, i);
    }
  }

  lemma {:induction false} NothingBeyondIn(f: Function, instrs: seq<Op>, d: ValueId, i: nat)
    requires i > MAX_CALL_RESULT_INDEX
    ensures ExtractIn(f, instrs, d, i) == None
  {
    if instrs != [] {
      NothingBeyondIn(f, instrs[..|instrs| - 1], d, i);
    }
  }

  /** Binding looks results up slot by slot. */
  lemma BindSame(t: Term, args: seq<Option<Term>>, results: seq<Option<Term>>, results': seq<Option<Term>>)
    requires forall i: nat :: SlotOf(results, i) == SlotOf(results', i)
    ensures Bind(t, args, results) == Bind(t, args, results')
  {
    hide Substitute, FreeVars;
    forall x: Name
      ensures BindingOf(x, args, results) == BindingOf(x, args, results')
    {
      if x.Result? {
        assert SlotOf(results, x.index) == SlotOf(results', x.index);
      }
    }
    if Bindable(t, args, results) {
      var s, s' := Bindings(t, args, results), Bindings(t, args, results');
      assert s == s';
    }
  }

  // ---- usable clauses ----

  function UsableOf(c: Contract, cls: seq<Clause>): seq<Clause> {
    if cls == [] then []
    else UsableOf(c, cls[..|cls| - 1]) + if Usable(c, cls[|cls| - 1]) then [cls[|cls| - 1]] else []
  }

  ghost function GatedList(f: Function, b: nat, cls: seq<Clause>, args: seq<ValueId>, dst: Option<ValueId>): seq<Term> {
    if cls == [] then []
    else GatedList(f, b, cls[..|cls| - 1], args, dst) + GatedClause(f, b, cls[|cls| - 1], args, dst)
  }

  lemma {:induction false} GatedUsable(f: Function, b: nat, c: Contract, cls: seq<Clause>, args: seq<ValueId>,
                                       dst: Option<ValueId>)
    ensures GatedClauses(f, b, c, cls, args, dst) == GatedList(f, b, UsableOf(c, cls), args, dst)
  {
    hide GatedClause;
    if cls != [] {
      var rest := UsableOf(c, cls[..|cls| - 1]);
      GatedUsable(f, b, c, cls[..|cls| - 1], args, dst);
      if Usable(c, cls[|cls| - 1]) {
        assert (rest + [cls[|cls| - 1]])[..|rest|] == rest;
      } else {
        assert UsableOf(c, cls) == rest;
      }
    }
  }

  // ---- constants ----

  function GuardConsts(n: nat): set<(Name, Sort)> {
    set b | 0 <= b < n :: (Guard(b), BoolSort)
  }

  ghost function ConstsOf(f: Function, vs: seq<ValueId>): set<(Name, Sort)> {
    set v | v in vs && SortOfValue(f, v).Some? :: (NameOf(f, v), SortOfValue(f, v).value)
  }

  ghost function HavocConsts(f: Function, n: nat): set<(Name, Sort)> {
    set b | 0 <= b < n && HavocBranch(f, b) :: (HavocCond(b), BoolSort)
  }

  lemma NothingForwarded(f: Function, s: Forwarding, op: Op)
    requires !op.Load?
    ensures ForwardAssert(f, s, op) == []
  {
  }

  lemma ConstsGrow(f: Function, vs: seq<ValueId>, v: ValueId)
    ensures ConstsOf(f, vs + [v]) ==
              ConstsOf(f, vs) + if SortOfValue(f, v).Some? then {(NameOf(f, v), SortOfValue(f, v).value)} else {}
    ensures v in vs ==> ConstsOf(f, vs + [v]) == ConstsOf(f, vs)
  {
    hide NameOf, SortOfValue;
  }

  lemma DeclarationStep(f: Function, vs: seq<ValueId>, v: ValueId)
    ensures DeclarationAsserts(f, vs + [v]) == DeclarationAsserts(f, vs) + if v in vs then [] else DeclareAsserts(f, v)
  {
    hide DeclareAsserts;
    assert (vs + [v])[..|vs|] == vs;
  }

  lemma HavocMentioned(f: Function, b: nat)
    requires b < |f.blocks|
    ensures var instrs := f.blocks[b].instrs;
            |instrs| > 0 && instrs[|instrs| - 1].Branch? ==> instrs[|instrs| - 1].cond in Mentions(f)
    ensures HavocConsts(f, b + 1) == HavocConsts(f, b) + if HavocBranch(f, b) then {(HavocCond(b), BoolSort)} else {}
  {
    hide Mentions, TermOf;
    var instrs := f.blocks[b].instrs;
    if |instrs| > 0 && instrs[|instrs| - 1].Branch? {
      Mentioned(f, (b, |instrs| - 1), instrs[|instrs| - 1].cond);
    }
  }
}

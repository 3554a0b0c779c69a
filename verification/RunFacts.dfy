/** What single assignment gives about a run: registers never change once written. */
module RunFacts {
  import opened Wrappers
  import opened Graphs
  import opened Dominators
  import opened Terms
  import opened Ir
  import opened Encoding
  import opened Runs

  lemma PathDistinct(g: Graph, p: seq<nat>, i: nat, j: nat)
    requires AcyclicFromEntry(g) && IsPath(g, p) && p[0] == 0 && i < j < |p|
    ensures p[i] != p[j]
  {
    PathSlice(g, p, 0, i);
    PathSlice(g, p, i + 1, j);
    assert Edge(g, p[i], p[i + 1]);
  }

  ghost predicate Earlier(k: nat, i: nat, k': nat, i': nat) {
    k < k' || (k == k' && i < i')
  }

  /** Site s ran at a position before (k, i). */
  ghost predicate DoneBefore(run: Run, s: Site, k: nat, i: nat)
    requires |run.path| == |run.states|
  {
    exists k' :: 0 <= k' < |run.path| && run.path[k'] == s.0 && s.1 + 1 < |run.states[k']| && Earlier(k', s.1, k, i)
  }

  ghost predicate Within(outer: Regs, inner: Regs) {
    forall v :: v in inner ==> v in outer && outer[v] == inner[v]
  }

  ghost predicate Position(run: Run, k: nat, i: nat) {
    k < |run.path| == |run.states| && i < |run.states[k]|
  }

  lemma ExecAt(m: Machine, f: Function, dag: Graph, run: Run, k: nat, i: nat)
    requires IsRun(m, f, dag, run) && Position(run, k, i + 1)
    ensures run.path[k] < |f.blocks| && IsSite(f, (run.path[k], i))
    ensures Exec(m, f, run.path[k], CameFrom(run, k), OpAt(f, (run.path[k], i)), run.states[k][i], run.states[k][i + 1])
  {
    assert Executes(m, f, run, k) && ExecutesAt(m, f, run, k, i);
  }

  /** A register that some instruction defines is only there once that instruction has run. */
  lemma {:induction false} DefinedMeansDone(m: Machine, f: Function, dag: Graph, run: Run, k: nat, i: nat, v: ValueId,
                                            d: Site)
    requires IsRun(m, f, dag, run) && StrictSsa(f) && Position(run, k, i)
    requires v in run.states[k][i].regs && DefinesAt(f, d, v)
    ensures DoneBefore(run, d, k, i)
    decreases k, i
  {
    if i > 0 {
      ExecAt(m, f, dag, run, k, i - 1);
      var s: Site := (run.path[k], i - 1);
      if v in run.states[k][i - 1].regs {
        DefinedMeansDone(m, f, dag, run, k, i - 1, v, d);
        var k' :| 0 <= k' < |run.path| && run.path[k'] == d.0 && d.1 + 1 < |run.states[k']|
          && Earlier(k', d.1, k, i - 1);
        assert Earlier(k', d.1, k, i);
      } else {
        assert DefinesAt(f, s, v);
        assert run.path[k] == s.0 && Earlier(k, s.1, k, i);
      }
    } else if k > 0 {
      assert HandsOver(f, run, k - 1);
      var last := |run.states[k - 1]| - 1;
      DefinedMeansDone(m, f, dag, run, k - 1, last, v, d);
      var k' :| 0 <= k' < |run.path| && run.path[k'] == d.0 && d.1 + 1 < |run.states[k']|
        && Earlier(k', d.1, k - 1, last);
      assert Earlier(k', d.1, k, i);
    }
  }

  lemma StepGrows(m: Machine, f: Function, dag: Graph, run: Run, k: nat, i: nat)
    requires IsRun(m, f, dag, run) && StrictSsa(f) && AcyclicFromEntry(dag) && Position(run, k, i + 1)
    ensures Within(run.states[k][i + 1].regs, run.states[k][i].regs)
  {
    ExecAt(m, f, dag, run, k, i);
    var s: Site := (run.path[k], i);
    match OpDst(OpAt(f, s)) {
      case None =>
      case Some(d) =>
        if d in run.states[k][i].regs {
          assert DefinesAt(f, s, d);
          DefinedMeansDone(m, f, dag, run, k, i, d, s);
          var k' :| 0 <= k' < |run.path| && run.path[k'] == s.0 && s.1 + 1 < |run.states[k']| && Earlier(k', s.1, k, i);
          PathDistinct(dag, run.path, k', k);
        }
    }
  }

  /** Every state's registers survive to the end of the run. */
  lemma {:induction false} RegsSurvive(m: Machine, f: Function, dag: Graph, run: Run, k: nat, i: nat)
    requires IsRun(m, f, dag, run) && StrictSsa(f) && AcyclicFromEntry(dag) && Position(run, k, i)
    ensures |run.states[|run.states| - 1]| > 0 && Within(LastState(run).regs, run.states[k][i].regs)
    decreases |run.path| - k, |run.states[k]| - i
  {
    assert Executes(m, f, run, |run.path| - 1);
    if i + 1 < |run.states[k]| {
      StepGrows(m, f, dag, run, k, i);
      RegsSurvive(m, f, dag, run, k, i + 1);
    } else if k + 1 < |run.path| {
      assert HandsOver(f, run, k);
      RegsSurvive(m, f, dag, run, k + 1, 0);
    }
  }

  lemma RunShape(m: Machine, f: Function, dag: Graph, run: Run)
    requires IsRun(m, f, dag, run)
    ensures |run.path| == |run.states| > 0 && LastBlock(run) < |f.blocks| && |run.states[|run.states| - 1]| > 0
    ensures forall k :: 0 <= k < |run.path| ==> |run.states[k]| > 0
  {
    forall k | 0 <= k < |run.path|
      ensures |run.states[k]| > 0
    {
      assert Executes(m, f, run, k);
    }
  }

  /** Final registers are well typed and constants have their values. */
  lemma {:induction false} RegsTyped(m: Machine, f: Function, dag: Graph, run: Run, k: nat, i: nat, v: ValueId)
    requires IsRun(m, f, dag, run) && StrictSsa(f) && Position(run, k, i) && v in run.states[k][i].regs
    ensures HasType(run.states[k][i].regs[v], TypeOf(f, v))
    ensures ValueOf(f, v).kind.ConstKind? && ConstMeaning(ValueOf(f, v).kind.c, TypeOf(f, v)).Some? ==>
              run.states[k][i].regs[v] == Plain(ConstMeaning(ValueOf(f, v).kind.c, TypeOf(f, v)).value)
    decreases k, i
  {
    if i > 0 {
      ExecAt(m, f, dag, run, k, i - 1);
      var s: Site := (run.path[k], i - 1);
      if OpDst(OpAt(f, s)) == Some(v) {
        assert DefinesAt(f, s, v);
      } else {
        RegsTyped(m, f, dag, run, k, i - 1, v);
      }
    } else if k > 0 {
      assert HandsOver(f, run, k - 1);
      RegsTyped(m, f, dag, run, k - 1, |run.states[k - 1]| - 1, v);
    }
  }

  /** What an executed instruction left behind, seen from the final registers. */
  ghost predicate Left(m: Machine, f: Function, block: nat, from: Option<nat>, op: Op, s: State, s': State, final: Regs)
    requires block < |f.blocks|
  {
    && Exec(m, f, block, from, op, s, s')
    && Within(final, s.regs) && Within(final, s'.regs)
  }

  lemma ExecutedLeft(m: Machine, f: Function, dag: Graph, run: Run, s: Site) returns (k: nat)
    requires IsRun(m, f, dag, run) && StrictSsa(f) && AcyclicFromEntry(dag) && Executed(run, s)
    ensures k < |run.path| == |run.states| && run.path[k] == s.0 && s.1 + 1 < |run.states[k]|
        && |run.states[|run.states| - 1]| > 0
    ensures IsSite(f, s)
    ensures Left(m, f, s.0, CameFrom(run, k), OpAt(f, s), run.states[k][s.1], run.states[k][s.1 + 1],
        LastState(run).regs)
  {
    k :| 0 <= k < |run.path| && run.path[k] == s.0 && s.1 + 1 < |run.states[k]|;
    ExecAt(m, f, dag, run, k, s.1);
    RegsSurvive(m, f, dag, run, k, s.1);
    RegsSurvive(m, f, dag, run, k, s.1 + 1);
  }

  /** The register of an instruction is in the final state exactly when the instruction ran. */
  lemma DefinedIffExecuted(m: Machine, f: Function, dag: Graph, run: Run, d: Site, v: ValueId)
    requires IsRun(m, f, dag, run) && StrictSsa(f) && AcyclicFromEntry(dag) && DefinesAt(f, d, v)
    ensures |run.path| == |run.states| > 0 && |run.states[|run.states| - 1]| > 0
    ensures v in LastState(run).regs <==> Executed(run, d)
  {
    RunShape(m, f, dag, run);
    var last := |run.path| - 1;
    if v in LastState(run).regs {
      DefinedMeansDone(m, f, dag, run, last, |run.states[last]| - 1, v, d);
    }
    if Executed(run, d) {
      var k := ExecutedLeft(m, f, dag, run, d);
    }
  }
}

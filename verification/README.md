# A model of the goverify analysis kernel

goverify checks Go programs without running them. It turns each function's SSA body into a
formula, asks a solver whether a bad state can be reached, and carries what it learns about a
function to the function's callers. This project models the part of goverify on which everything
else rests, and proves that it is right.

Six parts build on each other.

1. **Graphs** (`Graphs`, `DepthFirst`, `CutDag`, `Dominators`). Loops are cut open by a three-colour
   depth-first search with an explicit stack. What is left is acyclic, keeps every block reachable,
   and loses only edges on cycles; a reverse postorder sorts it; one pass of the
   Cooper-Harvey-Kennedy algorithm gives immediate dominators, and the dominance query is exactly
   "another block that every path from the entry visits".
2. **Terms, values and encoding** (`MachineInts`, `Terms`, `Ir`, `Summaries`, `Encoding`, `Encoder`,
   `GuardTerms`, `IntOps`). A function becomes block guards, defining equalities with phis as
   if-then-else over edge guards, equalities between loads of one address with no write in between,
   and the guarded postconditions of the functions it calls. `Encoding` says what is emitted,
   `Encoder` emits it, pass by pass, into a growing object.
3. **The run theorem and its converse** (`Runs`, the other `Run...` modules, `Answers`, `Addresses`,
   `AnswersNeeded`, `EncodingClosed`, `GuardPaths`, `EncodingMeaning`, `EncodingLoads`,
   `EncodingPromises`, `EncodingRuns`). A step semantics with registers, a heap, stores, loads, branches
   and calls defines the runs over the cut graph. Every such run, finished or stopped anywhere, extends
   to an assignment that satisfies everything emitted, if the callees' contracts can be answered; a
   complete run does in any case. So a refuted reachability query rules out every run, and the
   condition on the contracts is exact. In the other direction, every assignment of the guard
   equations describes exactly one path, and every assignment that satisfies an encoding gives each
   phi, copy, operation, address, length and constant the value its instruction computes, equal values
   to loads of one place, and results that keep the callees' promises; if it shares a run's inputs it
   agrees with the run on all registers. So nothing is missing from an encoding either.
4. **What the theorem is used for** (`ProgramRuns`, `Postconditions`, `ProposalsExact`,
   `GroupContracts`, `ScheduleContracts`, `CheckedDerefs`, `SendOrdinal`, `Frames`, `Violations`,
   `BoundsSites`). Contracts whose clauses are proposed or verified under the very same contracts are
   true of all calls, recursion included, however deeply they nest; correlations of a result with an
   error take from outside only that an error expression other than the literal nil stands for an
   error. The contracts an analyzed group ends up with are such, and so are those of a whole program
   analyzed callees first. With a complete solver, exactly the clauses that the encoding bears out are
   proposed. Dereferences that a point is dominated by may be assumed to have succeeded; the fill count
   of a buffered channel is exact; queries of different functions can be conjoined without meeting; the
   violation terms say exactly when Go's conversions, divisions, index and slice expressions go wrong,
   and whatever goes wrong so in a run is on the lists.
5. **Between functions** (`Locations`, `LocationMeaning`, `Effects`, `Blocking`, `Collecting`,
   `Performed`, `Fixpoint`, `Waves`, `Escapes`). Effects form a lattice with re-rooting through call
   sites; what is collected is exactly what the instructions and the functions they run do, each where
   the caller knows it; collecting is monotone; the counterparts of a blocked operation are exactly what
   can unblock it. A recursive group stops at the least solution or gives up within its bound, and then
   covers anything; groups may run in parallel waves in any interleaving; channel aliases are the least
   closed sets.
6. **Caches** (`SccKeys`, `CacheRuns`, `Entries`, `EntryFormat`, `EntryRecords`, `EntryCodec`,
   `PackageKeys`). Group keys are equal exactly when the unfolded call structures match; if one group's
   analysis goes by what is hashed and by what there is below the group, matching groups have equal
   entries, so a run over any store of genuine entries gives what an uncached run gives, and stores
   what it had to analyze, so that the next run analyzes nothing; entries survive encoding, and no
   shorter or longer byte string passes for one; package keys exist exactly when the imports below are
   complete and acyclic.

Code that works by updating state is modelled by methods and classes (`Encoder.EncodedFunc`,
`Collecting.Gathering`, `CacheRuns.SccCache`, `EntryCodec.Writer` and `Reader`,
`PackageKeys.KeyTable`), each method tied to a function whose meaning is proved separately.

## Where the code promises less than one might think

Each of these is a lemma with a concrete input, next to one that says exactly when the promise holds.

- A callee's postcondition is asserted under the guard of the calling block (`encode.rs:836-852`), so it
  also binds runs that stop before the call. Where a block reads through p and then calls a function
  whose stated postcondition says that its argument is not nil, the query refutes that p is nil at the
  read, yet a run gets there with nil and panics (`AnswersNeeded.PanicRefuted`). Refutation is conclusive
  for every run of every caller exactly when the contract can be answered
  (`AnswersNeeded.ConclusiveExactly`); contracts of proposed clauses always can
  (`Postconditions.ProposalsAnswerable`).
- `violating_path` (`encode.rs:1283`) follows the first successor with a true guard. It always lists
  blocks of the path in order, from its first block to its last, but may leave some out
  (`GuardPaths.TraceCanSkip`). It lists the whole path iff at no block of it
  control passes by a first kept successor that is also on (`GuardPaths.TraceIsPath`).
- Conversions from a signed to a wider unsigned type are not checked (`bounds.rs:302`). They change
  the value exactly for negative numbers (`Violations.UngatedChanges`, `Violations.UncheckedConversion`).
- With a third index, `slice_violation` (`bounds.rs:34`) does not compare `high` with `max`
  (`Violations.ThreeIndexGap`); the result keeps `len <= cap` exactly under the condition of
  `Violations.ThreeIndexSlice`.

## Words

A *setting* is a well-formed function with its cut graph, block order, callee contracts and a run.
`Ready` says that these belong together: the function is in strict SSA form with every block
reachable, branch blocks have two distinct successors and other blocks at most one, no value is a
slice or string, and the contracts relied on are true of the callees. A contract is *answerable* if
for all arguments and result sorts some results satisfy every clause callers rely on; a run is
*covered* if it is complete or all contracts the function relies on are answerable. `FullModel` is the
assignment read off the run. `Holds(t, m)` means that t evaluates to true under m, and `Reading` is the
integer that a bit pattern stands for.

## Model

| member | source | states |
|---|---|---|
| DepthFirst.StepKeeps | crates/goverify-analysis/src/encode.rs:163-200 | Each step of the search (discover, record a back edge, pass an edge, finish a block) keeps the white-grey-black invariant, the stack being a path of grey blocks, and lowers a termination measure |
| DepthFirst.VisitedExact | crates/goverify-analysis/src/encode.rs:160-201 | When the search ends, the visited blocks are exactly those the entry reaches, before and after the cut |
| DepthFirst.KeptAcyclic | crates/goverify-analysis/src/encode.rs:160-201 | Without the recorded back edges no edge reachable from the entry lies on a cycle |
| CutDag.Retain | crates/goverify-analysis/src/encode.rs:193-199 | Deletes from each block exactly its recorded targets, order and multiplicity of the others kept |
| CutDag.CutBackEdges | crates/goverify-analysis/src/encode.rs:160-201 | The kept graph is the cut of the graph; a removed edge has a target that still reaches its source; reachability from the entry is unchanged; the reachable part is acyclic; visited is exactly reachability |
| CutDag.CutOfMeaning | crates/goverify-analysis/src/encode.rs:160-201 | The cut, as a function of the graph, has all the properties promised of cutting |
| CutDag.TopoOrder | crates/goverify-analysis/src/encode.rs:636-661 | Lists each reachable block once, entry first; on an acyclic graph every edge goes forward |
| Dominators.Intersect | crates/goverify-analysis/src/dom.rs:46-63 | The two-finger walk ends, at a block whose dominator chain is what the two chains have in common |
| Dominators.CommonDominator | crates/goverify-analysis/src/dom.rs:24-39 | Folding over the predecessors gives the common chain of those with an entry; the others contribute nothing |
| Dominators.Dominators | crates/goverify-analysis/src/dom.rs:12-43 | On an acyclic graph one pass gives the table of immediate dominators: an entry exactly for reachable blocks, and each the closest strict dominator in the sense of paths |
| Dominators.StrictlyDominates | crates/goverify-analysis/src/dom.rs:68-82 | True iff a is another block met on the way up from b, in no more links than there are blocks |
| Dominators.StrictDominanceExact | crates/goverify-analysis/src/dom.rs:68-82 | That query is true exactly when a is another block, b is reachable and every path from the entry to b visits a |
| Terms.EvalSorted | crates/goverify-analysis/src/encode.rs:122-139 | A well-sorted term evaluates to a value of its sort under a well-sorted assignment |
| Terms.SubstituteEval | crates/goverify-analysis/src/summary.rs:157-177 | Evaluating after simultaneous substitution is evaluating where each variable has the value of its replacement |
| Summaries.BindEval | crates/goverify-analysis/src/summary.rs:157-177 | A clause bound at a call site has the value of the clause in the environment of argument and result values |
| Summaries.BindExact | crates/goverify-analysis/src/summary.rs:157-177 | A clause can be bound iff each of its variables is an argument or a result there with a term of its sort |
| Summaries.RequiresViolated | crates/goverify-analysis/src/summary.rs:131-152 | A precondition is evaluated at a call iff all its variables are arguments with terms of their sorts; its violation then holds iff it is false of the arguments |
| Summaries.EnsuresBound | crates/goverify-analysis/src/summary.rs:183-204 | A postcondition is bound iff all its variables are there; it then holds iff it is true of the argument and result values |
| MachineInts.SdivAgrees | crates/goverify-analysis/src/encode.rs:1128-1169 | Signed bit-vector division is truncated division of the integers, wrapped |
| MachineInts.ShrAgrees | crates/goverify-analysis/src/encode.rs:1128-1169 | The right shifts, arithmetic and logical, are flooring division by a power of two, at counts beyond the width too |
| IntOps.IntOpExact | crates/goverify-analysis/src/encode.rs:1128-1169 | At any width and signedness each encoded integer operation that does not panic evaluates to the result Go defines |
| IntOps.UnOpExact | crates/goverify-analysis/src/encode.rs:919-937 | Negation, complement and logical not evaluate to the result Go defines |
| IntOps.WideningExact | crates/goverify-analysis/src/encode.rs:1073-1092 | The bounds asserted for a widening conversion hold exactly for the patterns that sign or zero extension produces |
| IntOps.ExtensionImage | crates/goverify-analysis/src/encode.rs:1073-1092 | A wide pattern is an extension of a narrow one exactly when its value fits the narrow type |
| Encoder.EncodedFunc.DeclareValue | crates/goverify-analysis/src/encode.rs:317-356 | A value not seen before gets its constant and its declaration assertions, a value seen before adds nothing; the table holds exactly the declared values that have a sort |
| Encoder.EncodedFunc.EdgeGuards | crates/goverify-analysis/src/encode.rs:428-446 | Collects for every block the guards of the kept edges into it, in block order |
| Encoder.EncodedFunc.EncodeGuards | crates/goverify-analysis/src/encode.rs:423-460 | Appends one equation per block: the entry on, unreachable blocks off, another block on iff some kept edge into it is taken |
| Encoder.EncodedFunc.EncodeOps | crates/goverify-analysis/src/encode.rs:594-602 | Appends the defining assertions of the modelled instructions, block by block |
| Encoder.EncodedFunc.EncodeLoadForwarding | crates/goverify-analysis/src/encode.rs:675-741 | Walks the blocks in topological order, equating each load with the first load of the same address since memory was last written |
| Encoder.EncodedFunc.CallResultTerms | crates/goverify-analysis/src/encode.rs:760-800 | A result slot holds the destination of a call with one result, or the first extraction of that component of the tuple |
| Encoder.EncodedFunc.EncodeCallEnsures | crates/goverify-analysis/src/encode.rs:808-855 | Appends, under the guard of the calling block, every usable postcondition of the callee that can be bound at the call |
| Encoder.EncodedFunc.ReachQuery | crates/goverify-analysis/src/encode.rs:224-239 | The query is all that was asserted, the guard of the block if there is one, and the extra conjuncts |
| Encoder.EncodeFunc | crates/goverify-analysis/src/encode.rs:265-312 | Succeeds iff the encoding is within the cap on assertions, and then holds exactly the encoding of the function over its own cut graph, reachability and order |
| GuardTerms.EdgeGuardMeaning | crates/goverify-analysis/src/encode.rs:468-485 | The guard of an edge is true iff its source is on and, at a branch, the condition picks this edge |
| GuardTerms.GuardRhsMeaning | crates/goverify-analysis/src/encode.rs:447-458 | The right-hand side of a guard equation is true iff some kept edge into the block has a true guard |
| GuardPaths.GuardEquation | crates/goverify-analysis/src/encode.rs:423-460 | Under any satisfying assignment a block is on iff it is the entry, or reachable with a chosen kept edge from a block that is on |
| GuardPaths.GuardsFollowOnePath | crates/goverify-analysis/src/encode.rs:423-460 | The blocks that are on are exactly those of one path, which takes the chosen edges until there is none or the edge was cut; unreachable cycles are off |
| GuardPaths.GuardPathUnique | crates/goverify-analysis/src/encode.rs:423-460 | There is only one such path |
| GuardPaths.ViolatingPath | crates/goverify-analysis/src/encode.rs:1283-1317 | Empty unless the entry is on; otherwise from each block to the first successor that is on, as long as one is |
| GuardPaths.TracePicksPath | crates/goverify-analysis/src/encode.rs:1283-1317 | The trace lists blocks of the path in its order, with the same first and last block |
| GuardPaths.TraceIsPath | crates/goverify-analysis/src/encode.rs:1301-1310 | The trace is the whole path iff at no block control passes by a first kept successor that is also on |
| GuardPaths.TraceCanSkip | crates/goverify-analysis/src/encode.rs:1301-1310 | A function and guard values for which the trace leaves a block out |
| RunGuards.GuardsHold | crates/goverify-analysis/src/encode.rs:423-460 | Every emitted guard equation holds under the assignment read off a run |
| RunDefs.RanPhi | crates/goverify-analysis/src/encode.rs:938-961 | A phi that ran equals the if-then-else over edge guards: the operand of the predecessor the run came from |
| RunDefs.DefsHold | crates/goverify-analysis/src/encode.rs:905-1121 | Every emitted defining assertion holds, of instructions that ran and of those that did not |
| RunLoads.PeersAgree | crates/goverify-analysis/src/encode.rs:675-741 | Two executed loads that follow the same leading load read the same value |
| RunLoads.LoadsHold | crates/goverify-analysis/src/encode.rs:675-741 | Every emitted load equality holds |
| RunCalls.BoundClauseHolds | crates/goverify-analysis/src/encode.rs:836-852 | A clause true of the values at an executed call is true where the encoding binds it |
| RunCalls.CallsHold | crates/goverify-analysis/src/encode.rs:808-855 | Every emitted guarded postcondition holds, of calls that ran and of calls the run did not get to, when the contracts of calls still ahead are answerable |
| RunTheorem.RunSatisfiesEncoding | crates/goverify-analysis/src/encode.rs:265-312 | Every covered run, wherever it stops, extends to an assignment that gives each declared constant a value of its sort and makes every emitted assertion true |
| RunTheorem.GuardsMarkTheRun | crates/goverify-analysis/src/encode.rs:423-460 | Under it the guards of a complete run are true exactly on the visited blocks |
| RunTheorem.RunSatisfiesQuery | crates/goverify-analysis/src/encode.rs:224-239 | A covered run at the block whose registers make the extra conjuncts true satisfies the query |
| RunTheorem.UnsatRulesOutRuns | crates/goverify-analysis/src/encode.rs:224-239 | If the query is refuted, no covered run gets to the block with registers that make all the extra conjuncts true |
| RunAnswers.SkippedCallHolds | crates/goverify-analysis/src/encode.rs:836-852 | What an answerable contract promises holds of a call the run did not get to, its results being assigned as the contract allows |
| Addresses.SwapEval | crates/goverify-analysis/src/encode.rs:122-139 | Terms see of an address only whether it is nil and whether it equals another: exchanging two addresses everywhere exchanges them in the value |
| AnswersNeeded.ConclusiveExactly | crates/goverify-analysis/src/encode.rs:836-852 | What is true of a run is never refuted, for all runs of all well-formed callers of a function, iff the contract of the function is answerable |
| AnswersNeeded.PanicRefuted | crates/goverify-analysis/src/encode.rs:836-852 | A function, a contract true of its callee and a run that reaches a read through nil, although the query with nil there is refuted |
| EncodingMeaning.EveryInstruction | crates/goverify-analysis/src/encode.rs:905-1121 | Under every assignment that satisfies an encoding, copies, operations, phis, addresses, widenings, lengths, new slices and slice expressions have the values computed from those of their operands; a phi that of the operand whose edge control comes along |
| EncodingMeaning.EncodingDetermines | crates/goverify-analysis/src/encode.rs:265-312 | So it is for the cut and the block order that the encoder chooses |
| EncodingMeaning.OneWayIn | crates/goverify-analysis/src/encode.rs:938-961 | Under such an assignment control comes into a block along at most one kept edge |
| EncodingMeaning.ConstForced | crates/goverify-analysis/src/encode.rs:317-356 | Constants have their meanings, the nil slice and string literals their lengths |
| EncodingMeaning.LengthForced | crates/goverify-analysis/src/encode.rs:317-356 | Slices and strings that no slice expression made are no longer than their capacity |
| EncodingLoads.LoadsAgree | crates/goverify-analysis/src/encode.rs:675-741 | Loads of the same place, in the sense of the definitions of their addresses, with nothing between them that may write memory, have one value under every such assignment |
| EncodingPromises.ResultTermExact | crates/goverify-analysis/src/encode.rs:760-800 | A result slot has the term of the register that stands for the result: the destination, or what first extracts the component |
| EncodingPromises.PromiseForced | crates/goverify-analysis/src/encode.rs:808-855 | Where the calling block is on, every postcondition of an inferred contract and every stated one of any contract, over modelled arguments and results, is true of their values |
| EncodingRuns.ModelIsRun | crates/goverify-analysis/src/encode.rs:265-312 | An assignment that satisfies the encoding and shares the inputs of a run, its unmodelled results and its unmodelled branches agrees with the run on every register, and is on along its path |
| ProgramRuns.RefutedAtReturn | crates/goverify-checkers/src/nil.rs:222-230 | A query refuted at the returning block makes one of its extra conjuncts false of every invocation that returns there |
| Postconditions.ReturnSites | crates/goverify-checkers/src/nil.rs:200-211 | All returns with their values, and whether every one has as many as the signature |
| Postconditions.InferEnsures | crates/goverify-checkers/src/nil.rs:181-262 | Returns exactly the proposed clauses: non-nil results proven at every return, and correlations with an error result proven wherever the error is the literal nil; none for an oversized or malformed body or one that never returns |
| Postconditions.NonNilIsTrue | crates/goverify-checkers/src/nil.rs:233-241 | With a sound solver, a proposed unconditional clause is true of a returning call at any depth of nesting, if the calls it makes keep their contracts |
| Postconditions.CorrelationIsTrue | crates/goverify-checkers/src/nil.rs:242-260 | So is a proposed correlation, if error expressions other than the literal nil stand for errors |
| ProposalsExact.ProposedExact | crates/goverify-checkers/src/nil.rs:181-262 | With a solver that is always right, a clause is proposed iff no assignment that satisfies the encoding and is at a return, for correlations at one of the literal nil, speaks against it |
| Postconditions.NothingPromised | crates/goverify-analysis/src/engine.rs:245-248 | A group starts from contracts that promise nothing, which are kept |
| Postconditions.RoundKeepsPromises | crates/goverify-analysis/src/engine.rs:258-277 | Replacing the contract of a function by what was proposed under kept contracts, correlations included, keeps every promise |
| Postconditions.RoundsKeepPromises | crates/goverify-analysis/src/engine.rs:244-298 | So does any number of such replacements over the members of a group, in any order |
| Postconditions.VerifyEnsures | crates/goverify-analysis/src/annotations.rs:191-286 | Warns, in order, about exactly the stated clauses that some return fails to prove; about all of them without an encoding |
| Postconditions.SilenceMeansTrue | crates/goverify-analysis/src/annotations.rs:235-284 | A stated clause not warned about is true of a returning invocation that met the preconditions of the function, if the calls it makes keep their contracts |
| ProposalsExact.VerifiedExact | crates/goverify-analysis/src/annotations.rs:191-286 | With a solver that is always right, a stated clause goes without a warning iff at every return every assignment that meets the preconditions makes it true of parameters and results |
| ProposalsExact.OwnOverArgs | crates/goverify-analysis/src/annotations.rs:273-277 | A precondition asserted as it stands is true iff it is true of the values of the parameters |
| Postconditions.ContractsHold | crates/goverify-analysis/src/annotations.rs:191-286 | Contracts whose clauses are proposed, verified under their own preconditions, or known otherwise, all under these same contracts, are true of every call at every depth, recursion included |
| Postconditions.ProposalsAnswerable | crates/goverify-checkers/src/nil.rs:52-78 | A contract of proposed clauses alone is answerable |
| GroupContracts.GroupKept | crates/goverify-analysis/src/engine.rs:244-298 | The final contracts of a settled or given-up group are kept at every depth, given the contracts of other functions, the error convention and stated clauses that are verified or known |
| GroupContracts.AnalyzeKept | crates/goverify-analysis/src/engine.rs:240-302 | Analyzing a group, recursive or not, widened or not, ends with contracts that are kept on those grounds |
| ScheduleContracts.SameEncoding | crates/goverify-analysis/src/encode.rs:836-852 | Contracts of functions that a body does not call play no part in its encoding |
| ScheduleContracts.OneMoreGroup | crates/goverify-analysis/src/engine.rs:655-668 | Filling the slots of the next group leaves every finished function explained: its summary is what analysis gives under all the summaries there are by now |
| ScheduleContracts.AllKept | crates/goverify-analysis/src/engine.rs:218-302 | When all groups are done, every contract in force, of analyzed and of external functions, is kept at every depth, given the error convention and stated clauses that are verified or known |
| ScheduleContracts.AnalyzeSchedule | crates/goverify-analysis/src/engine.rs:218-302 | Analyzing the groups callees first fills exactly the slots of their members and ends with contracts that are all kept on those grounds; a function without a slot reads as one that may do anything and promises only what was stated |
| CheckedDerefs.DerefSites | crates/goverify-checkers/src/nil.rs:26-48 | Exactly the dereferences of values of a plain pointer type, not of a named one |
| CheckedDerefs.NeedsExactly | crates/goverify-checkers/src/nil.rs:33-37 | An instruction is a site for a pointer it reads iff no execution gets through it with nil there |
| CheckedDerefs.CheckedDerefAssumptions | crates/goverify-checkers/src/shared.rs:54-83 | Exactly the non-nil facts of the sites that come earlier in the block or in a strictly dominating block |
| CheckedDerefs.SurvivedMeaning | crates/goverify-checkers/src/shared.rs:62-80 | What is assumed of a site holds iff its subject is not nil or its block is off |
| CheckedDerefs.BeforeIsExecuted | crates/goverify-checkers/src/shared.rs:62-73 | Every run that gets to the point has executed each such site |
| CheckedDerefs.AssumptionsAreTrue | crates/goverify-checkers/src/shared.rs:54-83 | So each assumption is true of every run that gets to the point |
| CheckedDerefs.AssumedRefutation | crates/goverify-checkers/src/shared.rs:44-83 | A query refuted under the assumptions still rules out every covered run |
| SendOrdinal.StrictAncestors | crates/goverify-checkers/src/leak.rs:971-996 | The ascending list of the other blocks that reach the block on kept edges |
| SendOrdinal.SendsOnLocIn | crates/goverify-checkers/src/leak.rs:1003-1015 | The number of sends on the location in the block, before the given instruction if there is one |
| SendOrdinal.OrdinalConjunct | crates/goverify-checkers/src/leak.rs:1034-1066 | The conjunct for the candidate; none exactly when the capacity or the total count does not fit 32 bits |
| SendOrdinal.OrdinalExact | crates/goverify-checkers/src/leak.rs:1017-1066 | Under any assignment of the guard equations that visits the candidate, the 32-bit count is the number of sends made before it on the path, without wrapping, and the conjunct holds iff that number has reached the capacity |
| Frames.RenderInjective | crates/goverify-checkers/src/leak.rs:915-942 | No two names of the three frames are spelled alike |
| Frames.Prefixed | crates/goverify-checkers/src/leak.rs:922-942 | Renames every declared constant, in the declarations and in every assertion; fails only if a substitution does |
| Frames.FrameModels | crates/goverify-checkers/src/leak.rs:922-942 | An assignment satisfies the renamed query iff its image under the renaming satisfies the query |
| Frames.EncodedNames | crates/goverify-analysis/src/encode.rs:224-252 | Queries over an encoding declare each name once, and only names of the function itself |
| EncodingClosed.EncodingIsClosed | crates/goverify-analysis/src/encode.rs:265-312 | Every emitted assertion is over the declared constants, for every function and all contracts |
| EncodingClosed.QueryIsClosed | crates/goverify-analysis/src/encode.rs:224-239 | A query over an encoding is closed and framable as soon as the extra conjuncts are over the declared constants |
| Frames.ConjoinSeparates | crates/goverify-checkers/src/leak.rs:953-963 | A query conjoined with another one renamed apart is satisfiable iff both are |
| Frames.ThreeFrames | crates/goverify-checkers/src/leak.rs:1235-1254 | Spawner, spawned function and helper: the conjunction is satisfiable iff each of the three queries is |
| Violations.ConvertExact | crates/goverify-checkers/src/bounds.rs:260-295 | For every checked pair of types the violation holds iff the conversion changes the integer |
| Violations.UngatedChanges | crates/goverify-checkers/src/bounds.rs:302-334 | A conversion that is not checked changes the integer iff it takes a negative number to an unsigned type |
| Violations.UncheckedConversion | crates/goverify-checkers/src/bounds.rs:302-334 | int32(-1) to uint64: not checked, and changed |
| Violations.DivisionExact | crates/goverify-checkers/src/bounds.rs:195-243 | The zero violation holds iff the divisor is zero; the overflow violation iff the quotient does not fit; remainders always fit |
| Violations.IndexExact | crates/goverify-checkers/src/bounds.rs:24-28 | Holds iff not 0 <= i < len as signed integers |
| Violations.SliceExact | crates/goverify-checkers/src/bounds.rs:34-43 | Without a third index, holds iff not 0 <= low <= high <= cap |
| Violations.SliceKeepsInvariant | crates/goverify-analysis/src/encode.rs:979-1019 | A slice expression that is no violation gives length high - low and keeps len <= cap |
| Violations.ThreeIndexSlice | crates/goverify-checkers/src/bounds.rs:34-43 | Given 0 <= low <= high <= cap and max <= cap, a third index keeps len <= cap iff high <= max, or max < low and the capacity wraps |
| Violations.ThreeIndexGap | crates/goverify-checkers/src/bounds.rs:34-43 | s[0:2:1] at capacity 4: no violation, and length above capacity |
| BoundsSites.SitesExact | crates/goverify-checkers/src/bounds.rs:195-334 | The list of sites, block by block and instruction by instruction, has exactly those of the instructions |
| BoundsSites.DivRemSites | crates/goverify-checkers/src/bounds.rs:195-243 | The scan for divisions and remainders lists exactly the zero-divisor sites and, after each signed division, its overflow site |
| BoundsSites.ConvertSites | crates/goverify-checkers/src/bounds.rs:302-334 | The scan for conversions lists exactly those that are checked |
| BoundsSites.ConversionInRun | crates/goverify-checkers/src/bounds.rs:302-334 | In a run, an executed conversion changed its integer iff the violation holds of the run |
| BoundsSites.ZeroInRun | crates/goverify-checkers/src/bounds.rs:195-243 | Where a run knows both operands, the zero violation holds of it iff the operation panics; of a run that got past the operation it never holds |
| BoundsSites.OverflowInRun | crates/goverify-checkers/src/bounds.rs:195-243 | An executed signed division had to wrap its quotient iff the overflow violation holds of the run |
| BoundsSites.PanicListed | crates/goverify-checkers/src/bounds.rs:195-243 | Every division or remainder that panics in a run is on the list, with a violation that holds of the run |
| BoundsSites.WrapListed | crates/goverify-checkers/src/bounds.rs:195-243 | So is every signed division whose quotient was wrapped |
| BoundsSites.ChangeListed | crates/goverify-checkers/src/bounds.rs:302-334 | So is every conversion that changed its integer, unless it took a negative number to a wider unsigned type |
| Locations.ResolveLoc | crates/goverify-analysis/src/effects.rs:234-293 | The bounded walk through definitions gives the location defined for the value: root and path, capped, unknown after too many hops |
| LocationMeaning.LocExact | crates/goverify-analysis/src/effects.rs:234-293 | A value is located at a part of a root iff at most 32 steps up its definitions say so and the path has at most two fields; otherwise its location is unknown |
| Locations.RebaseTwice | crates/goverify-analysis/src/effects.rs:331-360 | Re-rooting a location through two call sites is re-rooting through the composed one |
| LocationMeaning.RebaseMeans | crates/goverify-analysis/src/effects.rs:331-360 | A re-rooted location denotes in the caller the very place it denoted in the callee, parameters being the arguments and captures the bindings |
| LocationMeaning.RebaseKnown | crates/goverify-analysis/src/effects.rs:331-360 | It is unknown only for what the callee allocated, for arguments or bindings not known, and for paths that got too long |
| Locations.RebaseDegrades | crates/goverify-analysis/src/effects.rs:331-360 | A frame that knows less gives the same location or the unknown one |
| Effects.JoinIsLeast | crates/goverify-analysis/src/effects.rs:148-163 | Join is the least upper bound, in any order and grouping |
| Effects.LeqOrder | crates/goverify-analysis/src/effects.rs:148-163 | The order on effects is a partial order with the empty effects at the bottom |
| Effects.RebaseComposes | crates/goverify-analysis/src/effects.rs:306-329 | Re-rooting effects through two call sites is re-rooting through the composed one |
| Effects.RebaseJoin | crates/goverify-analysis/src/effects.rs:306-329 | Re-rooting distributes over join |
| Effects.CoveringKeepsSilence | crates/goverify-checkers/src/leak.rs:704-759 | If one set of effects covers another, no reason to suppress a leak report is lost, for a plain candidate or an arm of a select |
| Effects.CoversOrder | crates/goverify-analysis/src/effects.rs:105-116 | Covering is transitive, contains the order on effects, and the top covers everything |
| Blocking.UnblockersExact | crates/goverify-checkers/src/leak.rs:683-691 | The counterparts of a blocked send or receive are exactly the operations that can let it go on, in a model of a channel with its buffer and waiting goroutines |
| Blocking.CounterpartExact | crates/goverify-checkers/src/leak.rs:704-715 | There is a counterpart iff some operation at the location or at the unknown one can help, or the candidate is a select |
| Blocking.StuckForGood | crates/goverify-checkers/src/leak.rs:704-715 | Without a counterpart the operation stays blocked through every history of operations under the effects |
| Blocking.ArmAsPlain | crates/goverify-checkers/src/leak.rs:741-759 | An arm of a select is judged like a plain operation, but for selects at its own location |
| Effects.RebaseCovers | crates/goverify-analysis/src/effects.rs:306-360 | Covering survives re-rooting, also through a frame that knows less |
| Collecting.CyclicBlocks | crates/goverify-analysis/src/effects.rs:407-436 | A block is marked iff it can come back to itself in one or more steps |
| Collecting.ClosureBindings | crates/goverify-analysis/src/effects.rs:368-380 | A function made into a closure at one place has the bindings of that place; made at several it has none |
| Collecting.Collect | crates/goverify-analysis/src/effects.rs:537-645 | One scan of the body, then the callees only the call graph knows, gives the effects defined for the function |
| Performed.CollectedExact | crates/goverify-analysis/src/effects.rs:537-645 | Recorded at a location is exactly what an instruction does to a value located there, what a function run by an instruction does at a place the caller sees there, and what other callees do, at globals or nowhere in particular: channel operations, lock operations and spawning alike |
| Performed.UnboundedExact | crates/goverify-analysis/src/effects.rs:606-612 | Spawning counts as unbounded iff some goroutine is started on a cycle or some callee is unbounded |
| Performed.CapturesExact | crates/goverify-analysis/src/effects.rs:368-380 | The bindings of a function are known iff its closure is made at one place, and are those of that place |
| Performed.BodylessDoesAll | crates/goverify-analysis/src/effects.rs:537-545 | A function without a body may do anything |
| Collecting.CollectRelated | crates/goverify-analysis/src/effects.rs:537-645 | More effects of the callees give more of the caller, and effects covering the effects of the callees cover those of the caller |
| Collecting.CollectMonotone | crates/goverify-analysis/src/effects.rs:537-645 | Collecting is monotone in the effects of the callees |
| Fixpoint.WithClausesExact | crates/goverify-analysis/src/summary.rs:93-105 | Merging keeps what was there, adds every stated formula once and nothing else |
| Fixpoint.GivenUpIsSafe | crates/goverify-analysis/src/summary.rs:74-125 | The summary of a function given up on, or never seen, covers any effects at the function and at every call of it, leaves no blocked operation counting as stuck, and has the stated clauses and no others |
| Fixpoint.Round | crates/goverify-analysis/src/engine.rs:259-277 | One round updates the members in turn, each update visible to the next; a round without change means that every equation holds |
| Fixpoint.AnalyzeGroup | crates/goverify-analysis/src/engine.rs:240-302 | A recursive group stops settled, below every solution, or after widen_after + 1 rounds with every member given up to a summary that covers any effects and promises only what was stated; a group without recursion takes one round |
| Fixpoint.SettledIsLeast | crates/goverify-analysis/src/engine.rs:278-280 | The effects of a settled group solve all equations at once and are the least that do |
| Fixpoint.OneRoundSettles | crates/goverify-analysis/src/engine.rs:278-280 | A function that does not read its own summary is settled by one round |
| Waves.AssignDepths | crates/goverify-analysis/src/engine.rs:138-146 | In one pass each group gets a depth one above the deepest group it calls |
| Waves.AssignWaves | crates/goverify-analysis/src/engine.rs:147-154 | Each wave lists the groups of its depth, in schedule order |
| Waves.StepKeepsSane | crates/goverify-analysis/src/engine.rs:218-302 | Every step of every worker keeps the invariant: exactly the slots of finished groups are filled, with final results, and whatever a worker has looked up was final |
| Waves.NoEarlyLook | crates/goverify-analysis/src/engine.rs:655-668 | No lookup ever finds a slot empty that some group has yet to fill |
| Waves.Deterministic | crates/goverify-analysis/src/engine.rs:218-302 | Every interleaving that finishes ends with the summaries of the sequential run |
| Escapes.GrowAliases | crates/goverify-checkers/src/leak.rs:597-655 | Passes until nothing changes; the result is the least pair of alias sets closed under the rules |
| Escapes.LeastUnique | crates/goverify-checkers/src/leak.rs:597-655 | There is only one least pair |
| Escapes.EscapesFrom | crates/goverify-checkers/src/leak.rs:597-674 | True iff some chain of aliases from the channel ends in a use outside the whitelist |
| Escapes.TrackedIffReached | crates/goverify-checkers/src/leak.rs:597-655 | The least sets hold exactly the values that some chain of alias steps from the channel leads to |
| Escapes.VerdictExact | crates/goverify-checkers/src/leak.rs:536-674 | A scan of the least sets finds an escape iff some chain of aliases ends in a use outside the whitelist |
| Escapes.SilenceCoversChains | crates/goverify-checkers/src/leak.rs:536-674 | If none is found, the value at the end of any chain is tracked and no instruction uses it outside the whitelist |
| Escapes.OrderDoesNotMatter | crates/goverify-checkers/src/leak.rs:597-674 | Functions with the same instructions in any arrangement have the same verdict |
| SccKeys.Keys | crates/goverify-analysis/src/scc_cache.rs:106-132 | In schedule order, each key is the hash of the sorted contents of the members and the sorted keys of the groups called |
| SccKeys.KeyIffMatch | crates/goverify-analysis/src/scc_cache.rs:106-132 | With an injective hash, two groups of any two programs have the same key iff their unfolded call structures match; numbering plays no part |
| SccKeys.SaltIffMatch | crates/goverify-analysis/src/scc_cache.rs:106-132 | Under another salt every group has another key |
| CacheRuns.MatchingAlike | crates/goverify-analysis/src/scc_cache.rs:106-132 | If the analysis of a group goes by the contents of its members and by the results below it, groups with matching unfolded structure have members of equal names and contents with equal results, all the way down |
| CacheRuns.MatchingEntries | crates/goverify-analysis/src/engine.rs:562-590 | So with members in one order they have equal entries: summaries, diagnostics and findings |
| CacheRuns.HitIsTrue | crates/goverify-analysis/src/engine.rs:615-621 | A genuine entry under the key of a group that names its members is what analyzing the group gives |
| CacheRuns.AnalyzeGroups | crates/goverify-analysis/src/engine.rs:218-302 | Replaying what is cached and matches and analyzing the rest gives the summaries of the uncached run; analyzed are exactly the groups whose key has no entry that names the members, replayed exactly the members of the others |
| CacheRuns.CollectFindings | crates/goverify-analysis/src/engine.rs:333-360 | Ascending over the functions, replayed or computed: the findings and diagnostics of the uncached run |
| CacheRuns.FindingsInTurn | crates/goverify-analysis/src/engine.rs:333-360 | In the uncached run the findings and diagnostics of a function come after those of functions of lower number and before those of higher |
| CacheRuns.DiagsInTurn | crates/goverify-analysis/src/engine.rs:324-330 | So do their analysis diagnostics |
| CacheRuns.PutMissed | crates/goverify-analysis/src/engine.rs:562-590 | Every analyzed group has under its key the true entry of an analyzed group with that key; all other keys are as before; the store stays genuine |
| CacheRuns.CachedRun | crates/goverify-analysis/src/engine.rs:119-600 | A run over any store of genuine entries has the summaries, findings and diagnostics of an uncached run; afterwards the store is genuine, every group has an entry, and if functions have distinct names the next run would find them all; keys of no group are untouched |
| EntryFormat.U32RoundTrip | crates/goverify-analysis/src/scc_cache.rs:169-188 | Four little-endian bytes read back as the number |
| EntryFormat.U32Exact | crates/goverify-analysis/src/scc_cache.rs:184-188 | Four bytes are read as a number iff they are how it is written |
| EntryFormat.CodesExact | crates/goverify-analysis/src/scc_cache.rs:216-285 | No byte but its code is read as a provenance, a spawning or a severity |
| EntryFormat.OpCodesExact | crates/goverify-analysis/src/scc_cache.rs:287-330 | No byte but its code is read as a channel or a lock operation |
| EntryFormat.StrRoundTrip | crates/goverify-analysis/src/scc_cache.rs:173-198 | Length-prefixed text reads back, whatever follows |
| EntryFormat.ListRoundTrip | crates/goverify-analysis/src/scc_cache.rs:202-208 | The bound on counts never turns down an honest list, which reads back whatever follows |
| EntryFormat.EffectsRoundTrip | crates/goverify-analysis/src/scc_cache.rs:390-438 | Effects read back, tables and all |
| EntryRecords.MemberRoundTrip | crates/goverify-analysis/src/scc_cache.rs:569-612 | A member of an entry reads back, whatever follows |
| EntryRecords.EntryRoundTrip | crates/goverify-analysis/src/scc_cache.rs:618-647 | Decoding the encoding of an entry gives the entry |
| EntryRecords.OnlyWholeEncodings | crates/goverify-analysis/src/scc_cache.rs:631-647 | No strict prefix of an encoding decodes, and no encoding with something appended |
| EntryRecords.OtherFormatRefused | crates/goverify-analysis/src/scc_cache.rs:631-647 | Nothing that starts with another format number decodes |
| EntryRecords.EncodingsDiffer | crates/goverify-analysis/src/scc_cache.rs:618-647 | Different entries have different encodings |
| EntryCodec.Writer.PutMember | crates/goverify-analysis/src/scc_cache.rs:569-587 | Appends the encoding of the member to the buffer |
| EntryCodec.Reader.TakeStr | crates/goverify-analysis/src/scc_cache.rs:190-198 | Answers None or the text, and leaves the cursor behind it |
| EntryCodec.Reader.TakeChanTable | crates/goverify-analysis/src/scc_cache.rs:412-423 | Reads a table entry by entry, a location that comes again replacing what was there |
| EntryCodec.Reader.TakeMember | crates/goverify-analysis/src/scc_cache.rs:589-612 | Reads a member as the format says and leaves the cursor behind it, or answers None |
| EntryCodec.EncodeEntry | crates/goverify-analysis/src/scc_cache.rs:618-626 | Writes exactly the encoding of the entry |
| EntryCodec.DecodeEntryBytes | crates/goverify-analysis/src/scc_cache.rs:631-647 | Answers on every byte string, exactly as the format says |
| EntryCodec.StoreAndLoad | crates/goverify-analysis/src/scc_cache.rs:134-141 | Writing an entry and reading it back gives the entry |
| PackageKeys.LastStays | crates/goverify-extract/src/cached.rs:48-49 | Of several packages with one path the one listed last counts |
| PackageKeys.MerkleSettled | crates/goverify-extract/src/cached.rs:54-99 | A key that comes out does not depend on which packages were being visited |
| PackageKeys.KeyedIffSound | crates/goverify-extract/src/cached.rs:54-99 | There is a key iff every chain of imports below the package repeats nothing and meets only listed packages with readable files |
| PackageKeys.KeyFromImports | crates/goverify-extract/src/cached.rs:77-98 | A key is the hash of the path, the hashes of the files and the sorted keys of the imports |
| PackageKeys.KeyTells | crates/goverify-extract/src/cached.rs:77-98 | With an injective hash two keys are equal iff toolchain, path, hashes of the files and keys of the imports are |
| PackageKeys.KeyTable.KeyOf | crates/goverify-extract/src/cached.rs:54-99 | With any valid memo and visiting stack the result is that of the recursion without a memo, errors included; the memo stays valid |
| PackageKeys.AllKeys | crates/goverify-extract/src/cached.rs:44-105 | Keys come out iff all below the listed packages is listed, acyclic and readable; they are those of the recursion without a memo; otherwise the error is that of the first listed package without a key |
| PackageKeys.OrderOfList | crates/goverify-extract/src/cached.rs:48-49 | With each path listed once, another order of the list names the same packages |

## Left out

- The solver, its timeouts and its text format: a solver is a function from queries to answers, and where a result needs it, "unsatisfiable" is required to be right.
- RunTheorem.RunSatisfiesEncoding: leaves out functions with slice- or string-sorted values, because the sequence invariant is asserted without a guard (`encode.rs:346-348`) and so constrains runs that never execute the instruction; the equality of strings is the equality of their lengths.
- RunTheorem.RunSatisfiesEncoding: covers runs up to the first repetition of a loop, with calls that do not write memory, as the encoder documents (`encode.rs:1-6`, `encode.rs:671-674`).
- RunTheorem.UnsatRulesOutRuns: without an answerable contract it speaks of complete runs only; for the others it is false of the code (`AnswersNeeded.PanicRefuted`).
- GuardPaths.GuardsFollowOnePath: requires branch blocks to have two distinct successors and others at most one, because `edge_guard` takes the first position of a target (`encode.rs:472-478`).
- Postconditions.RoundKeepsPromises: where correlations with an error are proposed, takes error expressions other than the literal nil to stand for errors, as the code does (`nil.rs:251-253`), and takes what a human stated to be kept.
- Locations.ResolveLoc: named types are resolved beforehand; of a pointer type it is kept whether it had a name.
- CacheRuns.MatchingAlike: takes from the analysis that one group is analyzed from its members and what it calls, directly or not, and from the hashes that what is hashed of a function includes its name.
- ScheduleContracts.AllKept: takes of bodies that they are well formed in the sense of the run theorem, of errors that they are meant where correlations are proposed, and of stated clauses that they are verified or known otherwise.
- GroupContracts.GroupKept: takes of errors that they are meant where correlations are proposed, and of stated clauses that they are verified or known otherwise.
- EncodingLoads.LoadsAgree: speaks of loads of one sort; a load of another sort from the same place is not equated (`encode.rs:722-735`).
- EncodingRuns.ModelIsRun: leaves out what an encoding does not determine and takes it from the run: parameters, loads, call results, narrowing conversions and branches on conditions without a term.
- CheckedDerefs.NeedsExactly: like the code it does not count indexing through a nil pointer to an array as a dereference.
- PackageKeys.OrderOfList: of two packages with one path the later one counts, so without distinct paths the order of the list matters.
- CacheRuns.CachedRun: takes groups one after the other; interleavings are the subject of `Waves`, and the bytes of stored entries that of `EntryCodec`.
- The rule about pointers that went through uintptr, the table of constructors that never return nil, and the recognition of error types: heuristics, given to the model as facts about values.
- Declared constants form a set; their sorted order and the removal of duplicates do not show.
- Hashes are injective functions into numbers, over the fields that are fed to them rather than over bytes.
- Text encoding, the term codec and the order in which maps are walked are parameters of the entry format, with the properties it needs.
- The file system, the store on disk, locks, panics, clocks and threads.
- Computing the call graph, its groups and the callees-first schedule: the schedule is given.
- Generating leak candidates, their mapping through call sites and the classification of capacities; inference of preconditions and their propagation to callers.
- Compiling annotations and the obligations at call sites that come from them.
- Loading packages, running the extractor, rendering, baselines and the command line.

/** What is stored per group: each member's summary, diagnostics and findings. */
module Entries {
  import opened Wrappers
  import opened Fixpoint

  datatype Pos = Pos(file: string, line: nat, col: nat)

  datatype TraceStep = TraceStep(block: nat, pos: Option<Pos>)

  datatype Severity = ErrorSeverity | WarningSeverity

  datatype Finding = Finding(checker: string, tag: string, func: string, pos: Option<Pos>, message: string,
    severity: Severity,
                             trace: seq<TraceStep>, model: seq<(string, string)>)

  /** The function's name comes along as a check on what is installed. */
  datatype Member = Member(func: string, summary: Summary, diag: Option<string>, findings: seq<Finding>,
    findingsDiags: seq<string>)

  datatype SccEntry = SccEntry(members: seq<Member>)
}

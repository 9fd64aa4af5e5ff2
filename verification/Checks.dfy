/**
 One piece of evidence and its constructors (internal/agent/model/check.go).
 Names, reasons and sources are display text and are not kept; of the evidence
 payload only the gang rule's `wouldPass` is ever read back.
 */
module Checks {
  import opened Prelude

  datatype Check = Check(
    id: string, stage: string, passed: bool, determinate: bool, skipped: bool, wouldPass: Option<bool>)

  function Known(id: string, stage: string, passed: bool): Check {
    Check(id, stage, passed, true, false, None)
  }

  function Unknown(id: string, stage: string, wouldPass: Option<bool> := None): Check {
    Check(id, stage, false, false, false, wouldPass)
  }

  function Skipped(id: string, stage: string, wouldPass: Option<bool> := None): Check {
    Check(id, stage, true, true, true, wouldPass)
  }

  /** What the three constructors guarantee. */
  predicate WellFormed(c: Check) {
    (c.skipped ==> c.passed && c.determinate) && (!c.determinate ==> !c.passed)
  }

  predicate AllWellFormed(checks: seq<Check>) {
    forall i :: 0 <= i < |checks| ==> WellFormed(checks[i])
  }

  predicate KnownFailure(c: Check) {
    c.determinate && !c.passed
  }

  predicate Satisfied(c: Check) {
    c.passed && c.determinate
  }

  predicate HasKnownFailure(checks: seq<Check>) {
    exists i :: 0 <= i < |checks| && KnownFailure(checks[i])
  }

  predicate HasUnknown(checks: seq<Check>) {
    exists i :: 0 <= i < |checks| && !checks[i].determinate
  }

  predicate AllSatisfied(checks: seq<Check>) {
    forall i :: 0 <= i < |checks| ==> Satisfied(checks[i])
  }

  datatype Outcome = Pass | Fail | Undecided | NotRun
}

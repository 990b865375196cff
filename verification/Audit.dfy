/**
 The audited editor of internal/admin/audit.go: a start record before, a finish record after
 every mutation. The update and the log are the environment's answers.
 */
module Audit {
  datatype Outcome = NoChange | Changed | Failed

  datatype Effect = Start | Update | Finish(outcome: Outcome)

  /** What the update returns: whether it changed the policy, and whether it reported an error. */
  datatype UpdateResult = UpdateResult(changed: bool, failed: bool)

  datatype Report = Report(changed: bool, startFailed: bool, updateFailed: bool, finishFailed: bool)

  /** What the finish record says about an update. */
  function OutcomeOf(update: UpdateResult): Outcome {
    if update.failed then Failed else if update.changed then Changed else NoChange
  }

  predicate Clean(r: Report) { !r.startFailed && !r.updateFailed && !r.finishFailed }

  /**
   mutate and mutateRecovery. The policy is touched only after the start was recorded, the
   finish says what happened, and a failing log never hides a change that was made.
   */
  method Mutate(startOk: bool, update: UpdateResult, finishOk: bool) returns (report: Report, trace: seq<Effect>)
    ensures !startOk ==> trace == [Start] && report == Report(false, true, false, false)
    ensures startOk ==>
              trace == [Start, Update, Finish(OutcomeOf(update))] && report.changed == update.changed
    ensures Clean(report) <==> startOk && !update.failed && finishOk
    ensures Update in trace ==> trace[0] == Start && startOk
  {
    trace := [Start];
    if !startOk { return Report(false, true, false, false), trace; }
    trace := trace + [Update];
    var outcome := NoChange;
    if update.failed {
      outcome := Failed;
    } else if update.changed {
      outcome := Changed;
    }
    trace := trace + [Finish(outcome)];
    report := Report(update.changed, false, update.failed, !finishOk);
  }
}

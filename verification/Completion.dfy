/**
 * The machine an operator is meant to see: a destructive change that is not done, or done with
 * one result for ever. `shown` says whether the output file reports it. A report can only
 * appear, except that a power loss may take back a rename that was not yet durable.
 */
module Completion {
  datatype Completion<+R> = NotDone | Done(result: R, shown: bool)

  ghost predicate Next<R>(before: Completion<R>, after: Completion<R>, powerLoss: bool) {
    || before == after
    || (before.NotDone? && after.Done? && !after.shown)
    || (before.Done? && after.Done? && before.result == after.result && (after.shown || powerLoss))
  }
}

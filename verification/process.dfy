/** How a command handler ends. */
module Process {
  /** `process.exit(code)`, or a rejected handler promise (a database error
      that the handler does not catch, so no exit code of its own). */
  datatype Termination = Exit(code: int) | Rejected

  /** Exit status of a completed run. */
  const Success: int := 0
  /** Exit status when there is nothing to do or the migrations folder is missing. */
  const NothingToDo: int := 1
  /** Exit status when the operator's confirmation does not match. */
  const NotConfirmed: int := 2
}

/** `knex force-down <ver>`: forget every ledger row whose migration number is
    past the given version, after the operator re-types that version. */
module ForceDown {
  import opened Wrappers
  import opened Numerals
  import opened Process
  import opened KnexTable
  import opened Confirm

  /** Runs the handler against `table`. `answer` is what the operator types at
      the confirmation prompt; `prompt` is the token the prompt asked for, or
      None when no prompt was shown. */
  method Handler(table: MigrationsTable, version: int, answer: string)
    returns (outcome: Termination, prompt: Option<string>)
    modifies table
    // A version, or a name's prefix, that is not a 32-bit integer makes the
    // select raise.
    ensures !Queryable(old(table.rows), version) ==>
      outcome == Rejected && prompt == None && table.rows == old(table.rows)
    // Nothing selected: exit 1 before any prompt, ledger untouched.
    ensures Queryable(old(table.rows), version) && NewerThan(old(table.rows), version) == [] ==>
      outcome == Exit(NothingToDo) && prompt == None && table.rows == old(table.rows)
    // Otherwise the prompt asks for the version itself.
    ensures Queryable(old(table.rows), version) && NewerThan(old(table.rows), version) != [] ==>
      prompt == Some(Token(version))
    // A wrong answer: exit 2, ledger untouched.
    ensures prompt.Some? && answer != prompt.value ==>
      outcome == Exit(NotConfirmed) && table.rows == old(table.rows)
    // The right answer: exactly the selected rows are deleted, exit 0.
    ensures prompt.Some? && answer == prompt.value ==>
      outcome == Exit(Success) && table.rows == Kept(old(table.rows), version)
  {
    var selected := table.SelectNewer(version);
    if selected.None? {
      return Rejected, None;
    }
    if |selected.value| == 0 {
      return Exit(NothingToDo), None;
    }
    prompt := Some(Token(version));
    if answer != prompt.value {
      return Exit(NotConfirmed), prompt;
    }
    var ok := table.DeleteNewer(version);
    // Same predicate, same rows: the delete cannot raise where the select did not.
    assert ok;
    outcome := Exit(Success);
  }
}

/** The confirmation step: `confirm(question, expected)` goes on only when the
    operator's line equals `expected` exactly; both force commands pass the
    number they are about to act on, rendered as text. */
module Confirm {
  import opened Wrappers
  import opened Numerals

  /** `${n}`: the text the operator must type. It reads back as n (and,
      by IntToStringInjective, no other number has the same text). */
  function Token(n: int): (t: string)
    ensures ParseInteger(t) == Some(n)
  {
    IntToStringRoundTrip(n);
    IntToString(n)
  }
}

/** The named arity errors shared by the argument binders (sentinel/sentinel.go). */
module Sentinel {

  /** A sentinel error is a named string; callers match it by value. */
  datatype Error = Error(text: string) {

    /** The error text, which is the underlying string itself. */
    function Message(): (s: string)
      ensures Error(s) == this
    {
      text
    }
  }

  const TooManyArgs: Error := Error("too many arguments")
  const TooFewArgs: Error := Error("too few arguments")

  /** Two sentinel errors are the same value exactly when their texts agree,
      so matching by value and matching by message are interchangeable. */
  lemma MessageDeterminesError(a: Error, b: Error)
    ensures a == b <==> a.Message() == b.Message()
  {
  }

  /** The two sentinels carry the documented texts and are distinct values. */
  lemma SentinelsDistinct()
    ensures TooManyArgs.Message() == "too many arguments"
    ensures TooFewArgs.Message() == "too few arguments"
    ensures TooManyArgs != TooFewArgs
  {
  }
}

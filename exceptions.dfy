/** The exceptions the bot raises or meets, as values. */
module Exceptions {

  /** The exception classes involved: the two from the project's own
      exceptions module that the bot can raise (`TokenError`,
      `EmptyResponseError`), Python's built-in ones, and the plain
      `Exception` raised for a non-200 HTTP status. */
  datatype Kind = TokenError | TypeError | EmptyResponseError | KeyError | ValueError | Exception

  /** An exception instance: its class and its single argument. */
  datatype Error = Raised(kind: Kind, message: string)

  /** Python's `str(error)`. A KeyError shows the repr of its argument;
      every KeyError message this program raises is free of quotes,
      backslashes and control characters, so that repr is the message in
      single quotes. */
  function Text(e: Error): (t: string)
    ensures e.kind != KeyError ==> t == e.message
    ensures e.kind == KeyError ==>
      |t| == |e.message| + 2 && t[0] == '\'' == t[|t| - 1] && t[1..|t| - 1] == e.message
  {
    if e.kind == KeyError then "'" + e.message + "'" else e.message
  }
}

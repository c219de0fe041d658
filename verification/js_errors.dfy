/**
 The part of JavaScript's exception machinery that the inventory handler
 observes: error objects, identified by their `name` tag, and the way a
 block completes, by returning or by throwing.
 */
module JsErrors {

  /** An `Error` object as the handler sees it: its `name` tag and its `message`. */
  datatype JsError = JsError(name: string, message: string)

  /** How a block of JavaScript completes: it returns a value or throws an error. */
  datatype Completion<+T> = Normal(value: T) | Throw(error: JsError)

  /** The name the runtime gives the error raised by reading a property of `undefined`. */
  const TypeErrorName: string := "TypeError"

  /**
   `Error.prototype.toString` (ECMAScript 2024, section 20.5.3.4) for an error
   whose name and message are both strings. It is what `new Error(e)` stores as
   the message of the new error when `e` is itself an error.
   */
  function ErrorToString(e: JsError): (s: string)
    // the original name leads, the original message ends the text
    ensures e.name <= s
    ensures |e.message| <= |s| && s[|s| - |e.message|..] == e.message
    // with both parts present they are joined by a two-character separator
    ensures e.name != "" && e.message != "" ==> |s| == |e.name| + 2 + |e.message|
    // the text is empty only when there was nothing to render
    ensures s == [] <==> e.name == [] && e.message == []
  {
    if e.name == "" then e.message
    else if e.message == "" then e.name
    else e.name + ": " + e.message
  }
}

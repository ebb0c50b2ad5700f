/**
 * What a `fetch` made by a hook can come to, given to the model as an input
 * instead of performing the request, and the error messages the hooks derive
 * from it.
 */
module Http {
  import opened Wrappers
  import Text

  /**
   * `Ok(body)`: the response was ok and its JSON body is `body`;
   * `HttpError(status)`: a response with `ok == false`;
   * `Thrown(message)`: the request or the JSON parsing threw, an `Error`
   * with that message (`Some`) or some other value (`None`);
   * `Aborted`: the request was aborted, so it threw an `AbortError`.
   */
  datatype Outcome<B> = Ok(body: B) | HttpError(status: int) | Thrown(message: Option<string>) | Aborted

  /** The message of the `Error` thrown for a response that is not ok. */
  function HttpErrorMessage(status: int): (m: string)
    ensures |m| > |"HTTP error! status: "| && m[..|"HTTP error! status: "|] == "HTTP error! status: "
    ensures Text.ParseInt(m[|"HTTP error! status: "|..]) == Some(status)
  {
    var prefix := "HTTP error! status: ";
    Text.ParseIntToString(status);
    assert (prefix + Text.IntToString(status))[|prefix|..] == Text.IntToString(status);
    prefix + Text.IntToString(status)
  }

  const FallbackErrorMessage := "An error occurred"

  /** `err instanceof Error ? err : new Error('An error occurred')`, by message. */
  function ThrownMessage(message: Option<string>): string {
    message.GetOr(FallbackErrorMessage)
  }
}

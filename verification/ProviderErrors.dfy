/** Provider errors and how the Codex provider classifies them by their text. */
module ProviderErrors {

  datatype ProviderError =
    | WebSocket(message: string)
    | HttpStatus(status: nat, body: string)
    | ProviderFailure(message: string, body: string)
    | InvalidResponse(message: string)
    | Request(message: string)
    | OtherError

  function LowerChar(c: char): char {
    if 'A' <= c <= 'Z' then (c as int + 32) as char else c
  }

  function Lower(s: string): string {
    if s == [] then [] else [LowerChar(s[0])] + Lower(s[1..])
  }

  predicate Contains(s: string, part: string) {
    part <= s || (s != "" && Contains(s[1..], part))
  }

  const TRANSPORT_MARKS: seq<string> := [
    "broken pipe", "connection reset", "connection aborted", "connection refused", "connection closed",
    "closed before response.completed", "closing handshake", "reset without closing handshake", "io error",
    "transport error"]

  predicate IsTransport(e: ProviderError) {
    e.WebSocket? && exists i | 0 <= i < |TRANSPORT_MARKS| :: Contains(Lower(e.message), TRANSPORT_MARKS[i])
  }

  predicate IsUnauthorized(e: ProviderError) {
    e.HttpStatus? && e.status == 401
  }

  function ErrorText(e: ProviderError): string {
    match e
    case ProviderFailure(message, body) => message + " " + body
    case HttpStatus(_, body) => body
    case OtherError => ""
    case WebSocket(message) => message
    case InvalidResponse(message) => message
    case Request(message) => message
  }

  predicate IsPreviousNotFound(e: ProviderError) {
    var text := Lower(ErrorText(e));
    Contains(text, "previous response") && Contains(text, "not found") && Contains(text, "resp_")
  }
}

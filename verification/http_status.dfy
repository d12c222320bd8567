/** The status rule both servers apply when they turn a thrown error into a JSON error reply. */
module HttpStatus {
  import opened Wrappers

  /** `Number(error.status) || fallback`: an absent or zero status gives the fallback. */
  function StatusOr(status: Option<int>, fallback: int): (s: int)
    ensures status.Some? && status.value != 0 ==> s == status.value
    ensures (status.None? || status.value == 0) ==> s == fallback
  {
    if status.Some? && status.value != 0 then status.value else fallback
  }

  /** `status >= 500 ? "server_error" : "invalid_request_error"`. */
  function ErrorKind(status: int): (kind: string)
    ensures kind == "server_error" <==> status >= 500
    ensures kind == "invalid_request_error" <==> status < 500
  {
    if status >= 500 then "server_error" else "invalid_request_error"
  }
}

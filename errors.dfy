/** The two error classes of the service and the global error handler that
    turns any thrown error into a response. */
module Errors {
  import opened Wrappers
  import opened Catalogue

  const ProductNotFound: string := "Product not found"
  const InternalServerError: string := "Internal Server Error"

  /** An error of class NotFoundError; it carries status 404, so the global
      handler answers 404 with its message. */
  function NotFoundError(message: string): (e: Error)
    ensures e.name == "NotFoundError" && e.message == message
    ensures message != "" ==> HandleError(e) == Response(404, Problem(message))
  {
    Error("NotFoundError", message, Some(404))
  }

  /** An error of class ValidationError; it carries status 400, so the
      global handler answers 400 with its message. */
  function ValidationError(message: string): (e: Error)
    ensures e.name == "ValidationError" && e.message == message
    ensures message != "" ==> HandleError(e) == Response(400, Problem(message))
  {
    Error("ValidationError", message, Some(400))
  }

  /** The global error handler. The status is the error's own status when it
      has a truthy one, else 500; the body is the error's message when it is
      not empty, else a generic message. */
  function HandleError(e: Error): (r: Response)
    ensures r.payload.Problem? && r.payload.error != ""
    ensures r.status == 500 || Some(r.status) == e.status
    ensures e.status.Some? && e.status.value != 0 ==> r.status == e.status.value
    ensures !(e.status.Some? && e.status.value != 0) ==> r.status == 500
    ensures e.message != "" ==> r.payload.error == e.message
    ensures e.message == "" ==> r.payload.error == InternalServerError
  {
    var status := if e.status.Some? && e.status.value != 0 then e.status.value else 500;
    var message := if e.message != "" then e.message else InternalServerError;
    Response(status, Problem(message))
  }
}

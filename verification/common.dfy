/** Identities, callers, and the error taxonomy shared by the controllers. */
module Common {
  import opened Wrappers

  /** An opaque document id, compared as `ObjectId.toString()`. */
  type Id = string

  const ADMIN: string := "admin"
  const USER: string := "user"

  /** The authenticated user the `protect` middleware attaches to a request. */
  datatype Caller = Caller(id: Id, role: string, email: string)

  predicate IsAdmin(c: Caller) {
    c.role == ADMIN
  }

  /** JavaScript truthiness of an optional string taken from a request body. */
  predicate Truthy(o: Option<string>) {
    o.Some? && o.value != ""
  }

  /** `o || fallback` for an optional string. */
  function OrElse(o: Option<string>, fallback: string): (r: string)
    ensures Truthy(o) ==> r == o.value
    ensures !Truthy(o) ==> r == fallback
  {
    if Truthy(o) then o.value else fallback
  }

  /** How a controller request fails. `SchemaRejected` is a Mongoose validation
      error thrown by `Model.create`, which no controller catches; the reply the client
      then gets depends on the Express version and error middleware, which are not part
      of this model, so no status code is assigned to it. */
  datatype Error =
    | BadRequest(message: string)
    | Unauthorized(message: string)
    | NotFound(message: string)
    | SchemaRejected

  /** The outcome of one controller call: the collection afterwards and the reply. */
  datatype Reply<S, T> = Reply(store: S, result: Result<T, Error>)
}

/** The outcome of a route handler's early checks: either an error response
    with its HTTP status and message, or the value the handler goes on with. */
module Http {

  datatype Outcome<+T> = Rejected(status: nat, error: string) | Accepted(value: T)
}

/** Optional values and the HTTP-level outcome of a request handler. */
module Wrappers {

  datatype Option<+T> = None | Some(value: T)

  /** An error response: the HTTP status code and the `error` message of its JSON body. */
  datatype Failure = Failure(status: int, message: string)

  /** Either the JSON body of a 200 response or an error response. */
  datatype Result<+T> = Ok(value: T) | Err(failure: Failure)

  // The error responses the modelled routes can produce.
  const TokenRequired := Failure(401, "Access token required")
  const InvalidToken := Failure(403, "Invalid token")
  const UserExists := Failure(400, "User already exists")
  const InvalidCredentials := Failure(400, "Invalid credentials")
  const UserNotFound := Failure(404, "User not found")
  const OrganizationsOnly := Failure(403, "Only organizations can create opportunities")
  const VolunteersOnly := Failure(403, "Only volunteers can apply for opportunities")
  const OpportunityNotFound := Failure(404, "Opportunity not found")
  const AlreadyApplied := Failure(400, "Already applied for this opportunity")
}

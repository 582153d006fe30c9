/** What the custom actions share: the error a post action raises when the
    request has no user, and the optional `reason` field. */
module Actions {
  import opened Common

  /** `$request->user()->can(...)` on a request without a user: PHP raises an
      Error, which the framework reports as a server error. */
  const NoUserError: HttpError := HttpError(500, "Call to a member function can() on null")

  /** The rule `['nullable', 'string', 'max:500']` for `reason`. */
  predicate ReasonValid(reason: Option<string>) {
    reason.None? || |reason.value| <= 500
  }
}

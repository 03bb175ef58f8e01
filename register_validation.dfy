/** RegisterValidation: the body of a sign-up request. */
module RegisterValidation {
  import opened Joi

  const REGISTER_KEYS: set<string> := {"username", "email", "password", "passwordConfirm"}

  predicate RegisterBodyValid(body: Body, fmt: Formats) {
    && body.Keys == REGISTER_KEYS
    && StringRule(body["username"], false, 1)
    && EmailRule(body["email"], fmt)
    && StringRule(body["password"], false, 1)
    && StringRule(body["passwordConfirm"], false, 1)
  }

  /** What an accepted body guarantees about each field. */
  lemma RegisterAccepted(body: Body, fmt: Formats)
    requires RegisterBodyValid(body, fmt)
    ensures forall k :: k in REGISTER_KEYS ==> k in body && body[k].JStr? && |body[k].s| >= 1
    ensures fmt.isEmail(body["email"].s)
  {
  }

  /** A body with any other key, or without one of the four, is rejected. */
  lemma RegisterKeysEnforced(body: Body, fmt: Formats, k: string)
    requires (k in body) != (k in REGISTER_KEYS)
    ensures !RegisterBodyValid(body, fmt)
  {
  }
}

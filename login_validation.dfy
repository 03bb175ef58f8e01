/** LoginValidation: the body of a log-in request. */
module LoginValidation {
  import opened Joi

  predicate LoginBodyValid(body: Body, fmt: Formats) {
    && body.Keys == {"email", "password"}
    && EmailRule(body["email"], fmt)
    && StringRule(body["password"], false, 6)
  }

  /** The password must have at least six characters: five are refused, six accepted. */
  lemma PasswordLength(fmt: Formats, email: string)
    requires email != "" && fmt.isEmail(email)
    ensures !LoginBodyValid(map["email" := JStr(email), "password" := JStr("12345")], fmt)
    ensures LoginBodyValid(map["email" := JStr(email), "password" := JStr("123456")], fmt)
  {
    var b := map["email" := JStr(email), "password" := JStr("123456")];
    assert b.Keys == {"email", "password"};
  }

  /** A body with any other key, or without email or password, is rejected. */
  lemma LoginKeysEnforced(body: Body, fmt: Formats, k: string)
    requires (k in body) != (k in {"email", "password"})
    ensures !LoginBodyValid(body, fmt)
  {
  }
}

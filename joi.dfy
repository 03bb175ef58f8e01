/**
 * The handful of Joi rules the request validators use, over one JSON field
 * value. Every schema here is `Joi.object().keys({...})` with Joi's default
 * options: unknown keys are an error, `convert` is on (so `.trim()` trims
 * before the other rules run), and a `Joi.string()` refuses the empty string.
 */
module Joi {
  import opened Common
  import opened Text

  /** A JSON value as a request body field holds it; arrays and objects are `JComposite`. */
  datatype Json = JNull | JBool(b: bool) | JNum(n: real) | JStr(s: string) | JComposite

  /** A JSON object request body. */
  type Body = map<string, Json>

  /**
   * The string formats Joi checks with its own code, left uninterpreted:
   * `.email()`, `.iso()` on dates, and the instant an ISO date denotes.
   */
  datatype Formats = Formats(isEmail: string -> bool, isIsoDate: string -> bool, instant: string -> Timestamp)

  /** Number.MAX_SAFE_INTEGER: Joi's `number.unsafe` rule rejects anything beyond it. */
  const MAX_SAFE_INTEGER: real := 9007199254740991.0

  predicate IsInteger(n: real) {
    n.Floor as real == n
  }

  /** `Joi.string()` with optional `.trim()` and `.min(minLength)`. */
  predicate StringRule(v: Json, trim: bool, minLength: nat) {
    && v.JStr?
    && var t := if trim then Trim(v.s) else v.s;
       t != "" && |t| >= minLength
  }

  /** `Joi.number()` with optional `.integer()` and `.min(min)`. */
  predicate NumberRule(v: Json, integer: bool, min: real) {
    && v.JNum?
    && -MAX_SAFE_INTEGER <= v.n <= MAX_SAFE_INTEGER
    && (integer ==> IsInteger(v.n))
    && v.n >= min
  }

  /** `Joi.date().iso()`: an ISO 8601 date string. */
  predicate IsoDateRule(v: Json, fmt: Formats) {
    v.JStr? && fmt.isIsoDate(v.s)
  }

  /** `Joi.string().email()`. */
  predicate EmailRule(v: Json, fmt: Formats) {
    StringRule(v, false, 0) && fmt.isEmail(v.s)
  }

  /** `Joi.string().valid(...names)`. */
  predicate OneOfRule(v: Json, names: seq<string>) {
    v.JStr? && v.s in names
  }

  /** An integral JSON number as the integer it is. */
  function IntegerValue(v: Json): (k: int)
    requires v.JNum? && IsInteger(v.n)
    ensures k as real == v.n
  {
    v.n.Floor
  }

  /** A `.min(0)` integer read back is a natural number. */
  lemma IntegerRuleValue(v: Json)
    requires NumberRule(v, true, 0.0)
    ensures IntegerValue(v) >= 0
  {
  }

  /** `.trim()` makes a whitespace-only string empty, which `Joi.string()` refuses. */
  lemma TrimmedBlankRejected(s: string, minLength: nat)
    requires forall i :: 0 <= i < |s| ==> IsWhitespace(s[i])
    ensures !StringRule(JStr(s), true, minLength)
  {
    TrimAllWhitespace(s);
  }
}

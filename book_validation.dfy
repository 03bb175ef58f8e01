/** BookValidation: the body of a create-book or update-book request. */
module BookValidation {
  import opened Joi

  /** The ten genre names the schema lists. */
  const GENRE_NAMES: seq<string> := [
    "Fiction", "Non-fiction", "Science Fiction", "Mystery", "Romance",
    "Thriller", "Biography", "History", "Self-help", "Other"]

  const REQUIRED_KEYS: set<string> := {
    "title", "author", "coverImage", "publicationDate", "genre",
    "inStock", "price", "quantity", "rating", "views"}

  const OPTIONAL_KEYS: set<string> := {"description", "publisher", "lastViewed", "lastSoldAt"}

  /** `Joi.date().iso().allow(null)`. */
  predicate NullableDateRule(v: Json, fmt: Formats) {
    v.JNull? || IsoDateRule(v, fmt)
  }

  predicate BookBodyValid(body: Body, fmt: Formats) {
    && REQUIRED_KEYS <= body.Keys <= REQUIRED_KEYS + OPTIONAL_KEYS
    && StringRule(body["title"], false, 0)
    && StringRule(body["author"], false, 0)
    && StringRule(body["coverImage"], false, 0)
    && ("description" in body ==> StringRule(body["description"], false, 0))
    && IsoDateRule(body["publicationDate"], fmt)
    && OneOfRule(body["genre"], GENRE_NAMES)
    && ("publisher" in body ==> StringRule(body["publisher"], false, 0))
    && NumberRule(body["inStock"], true, 0.0)
    && NumberRule(body["price"], false, 0.0)
    && NumberRule(body["quantity"], true, 0.0)
    && NumberRule(body["rating"], true, 0.0)
    && NumberRule(body["views"], true, 0.0)
    && ("lastViewed" in body ==> NullableDateRule(body["lastViewed"], fmt))
    && ("lastSoldAt" in body ==> NullableDateRule(body["lastSoldAt"], fmt))
  }

  /** An accepted body has natural-number stock, quantity, rating and views, and a non-negative price. */
  lemma AcceptedNumbers(body: Body, fmt: Formats)
    requires BookBodyValid(body, fmt)
    ensures IntegerValue(body["inStock"]) >= 0 && IntegerValue(body["quantity"]) >= 0
    ensures IntegerValue(body["rating"]) >= 0 && IntegerValue(body["views"]) >= 0
    ensures body["price"].n >= 0.0
  {
  }

  /** Rating has no upper bound besides Joi's safe-integer limit. */
  lemma RatingUnbounded(body: Body, fmt: Formats, r: int)
    requires BookBodyValid(body, fmt)
    requires 0 <= r && r as real <= MAX_SAFE_INTEGER
    ensures BookBodyValid(body["rating" := JNum(r as real)], fmt)
  {
    var b := body["rating" := JNum(r as real)];
    assert b.Keys == body.Keys;
    assert forall k :: k in body && k != "rating" ==> b[k] == body[k];
  }

  /** A missing required field, or any unlisted field, is rejected. */
  lemma KeysEnforced(body: Body, fmt: Formats, k: string)
    requires (k in REQUIRED_KEYS && k !in body) || (k in body && k !in REQUIRED_KEYS + OPTIONAL_KEYS)
    ensures !BookBodyValid(body, fmt)
  {
  }

  /** The two dates may be null. */
  lemma OptionalFieldsMayBeNull(body: Body, fmt: Formats)
    requires BookBodyValid(body, fmt)
    ensures BookBodyValid(body["lastViewed" := JNull]["lastSoldAt" := JNull], fmt)
  {
    var b := body["lastViewed" := JNull]["lastSoldAt" := JNull];
    assert forall k :: k in body && k !in OPTIONAL_KEYS ==> b[k] == body[k];
  }

  /** The optional fields may all be left out. */
  lemma OptionalFieldsMayBeOmitted(body: Body, fmt: Formats)
    requires BookBodyValid(body, fmt)
    ensures BookBodyValid(body - OPTIONAL_KEYS, fmt)
  {
    var c := body - OPTIONAL_KEYS;
    assert c.Keys == body.Keys - OPTIONAL_KEYS;
    assert forall k :: k in c ==> c[k] == body[k];
  }
}

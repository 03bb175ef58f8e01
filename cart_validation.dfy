/** CartValidation: the body of an add-to-cart request. */
module CartValidation {
  import opened Joi

  /** `{ quantity: Joi.number().integer().min(0).required() }`, nothing else. */
  predicate CartBodyValid(body: Body) {
    body.Keys == {"quantity"} && NumberRule(body["quantity"], true, 0.0)
  }

  /** The quantity an accepted body asks for: a whole number, possibly 0. */
  function RequestedQuantity(body: Body): (q: int)
    requires CartBodyValid(body)
    ensures q >= 0 && q as real == body["quantity"].n
  {
    IntegerValue(body["quantity"])
  }

  lemma CartBodyExamples()
    ensures CartBodyValid(map["quantity" := JNum(0.0)])
    ensures CartBodyValid(map["quantity" := JNum(3.0)])
    ensures !CartBodyValid(map["quantity" := JNum(-1.0)])
    ensures !CartBodyValid(map["quantity" := JNum(1.5)])
    ensures !CartBodyValid(map[])
  {
    assert (1.5).Floor == 1;
  }

  /** Any key besides `quantity` makes the body invalid. */
  lemma ExtraKeyRejected(body: Body, k: string)
    requires k in body && k != "quantity"
    ensures !CartBodyValid(body)
  {
  }
}

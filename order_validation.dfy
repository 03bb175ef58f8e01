/** ShippingAddressValidation: the body schema of a shipping address. */
module OrderValidation {
  import opened Common
  import opened Text
  import opened Joi

  const ADDRESS_KEYS: set<string> := {"street", "city", "state", "zipCode", "country"}

  /** The ZIP pattern `^\d{5}(-\d{4})?$`: five digits, optionally a hyphen and four more. */
  predicate ZipPattern(t: string) {
    || (|t| == 5 && AllDigits(t))
    || (|t| == 10 && AllDigits(t[..5]) && t[5] == '-' && AllDigits(t[6..]))
  }

  /** `Joi.string().trim().pattern(...).required()` for `zipCode`. */
  predicate ZipRule(v: Json) {
    StringRule(v, true, 0) && ZipPattern(Trim(v.s))
  }

  /**
   * `ShippingAddressValidation.validate(address)` reports no error. The
   * schema is not `.required()`, so an absent address passes.
   */
  predicate ShippingAddressValid(address: Option<Body>) {
    address.None? ||
    var b := address.value;
    && b.Keys == ADDRESS_KEYS
    && StringRule(b["street"], true, 0)
    && StringRule(b["city"], true, 0)
    && StringRule(b["state"], true, 0)
    && ZipRule(b["zipCode"])
    && StringRule(b["country"], true, 0)
  }

  /** A ZIP code that passes has five or ten characters once trimmed, all digits save the sixth. */
  lemma ZipShape(v: Json)
    requires ZipRule(v)
    ensures var t := Trim(v.s);
      (|t| == 5 || |t| == 10) && forall i :: 0 <= i < |t| && i != 5 ==> IsDigit(t[i])
  {
    var t := Trim(v.s);
    if |t| == 10 {
      forall i | 0 <= i < |t| && i != 5 ensures IsDigit(t[i]) {
        if i < 5 { assert t[i] == t[..5][i]; } else { assert t[i] == t[6..][i - 6]; }
      }
    }
  }

  /** For a string without surrounding blanks, the rule is the bare pattern. */
  lemma ZipRuleOfTrimmed(s: string)
    requires s != [] && !IsWhitespace(s[0]) && !IsWhitespace(s[|s| - 1])
    ensures ZipRule(JStr(s)) <==> ZipPattern(s)
  {
    TrimOfTrimmed(s);
  }

  lemma ZipAccepted()
    ensures ZipRule(JStr("12345"))
  {
    ZipRuleOfTrimmed("12345");
  }

  lemma ZipPlusFourAccepted()
    ensures ZipRule(JStr("12345-6789"))
  {
    ZipRuleOfTrimmed("12345-6789");
    assert "12345-6789"[..5] == "12345" && "12345-6789"[6..] == "6789";
  }

  /** The value is trimmed before the pattern is applied: blanks around a ZIP code do not matter. */
  lemma ZipTrimmedFirst(front: string, zip: string, back: string)
    requires forall i :: 0 <= i < |front| ==> IsWhitespace(front[i])
    requires forall i :: 0 <= i < |back| ==> IsWhitespace(back[i])
    requires zip != [] && !IsWhitespace(zip[0]) && !IsWhitespace(zip[|zip| - 1])
    ensures ZipRule(JStr(front + zip + back)) <==> ZipPattern(zip)
  {
    TrimPadded(front, zip, back);
  }

  /** Wrong lengths fail. */
  lemma ZipRejected()
    ensures !ZipRule(JStr("1234"))
    ensures !ZipRule(JStr("123456"))
  {
    ZipRuleOfTrimmed("1234");
    ZipRuleOfTrimmed("123456");
  }

  /** A hyphen must be followed by exactly four digits. */
  lemma ZipBadSuffixRejected()
    ensures !ZipRule(JStr("12345-"))
    ensures !ZipRule(JStr("12345-678"))
  {
    ZipRuleOfTrimmed("12345-");
    ZipRuleOfTrimmed("12345-678");
  }

  /** A letter among the digits fails. */
  lemma ZipLetterRejected()
    ensures !ZipRule(JStr("1234a"))
  {
    ZipRuleOfTrimmed("1234a");
    assert !IsDigit("1234a"[4]);
  }

  /** A key outside the five listed makes the whole address invalid. */
  lemma UnknownKeyRejected(b: Body, k: string)
    requires k in b && k !in ADDRESS_KEYS
    ensures !ShippingAddressValid(Some(b))
  {
  }

  /** Each of the five fields is required. */
  lemma MissingKeyRejected(b: Body, k: string)
    requires k in ADDRESS_KEYS && k !in b
    ensures !ShippingAddressValid(Some(b))
  {
  }

  /** A street made only of blanks is trimmed to the empty string and refused. */
  lemma BlankStreetRejected(b: Body, s: string)
    requires "street" in b && b["street"] == JStr(s)
    requires forall i :: 0 <= i < |s| ==> IsWhitespace(s[i])
    ensures !ShippingAddressValid(Some(b))
  {
    TrimmedBlankRejected(s, 0);
  }
}

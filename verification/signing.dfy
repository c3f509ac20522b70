/** Payload signing for the two hosted-checkout providers
    (`buildBogSignature`, `buildWoopaySignature` in server/server.js): the
    values of a fixed, ordered list of fields are joined with `|` and the
    result is authenticated with HMAC-SHA256 under the provider's secret. */
module Signing {
  import opened JsString
  import opened PaymentConfig

  /** A JSON object whose values are strings: a redirect payload or a
      callback body. */
  type Payload = map<string, string>

  /** HMAC-SHA256 as a hex digest, `(key, message) -> digest`. The real
      primitive is a library call; the model keeps it abstract and every
      property below holds for whichever function is passed in. */
  type Hmac = (string, string) -> string

  const BogSignedFields: seq<string> :=
    ["merchantId", "terminalId", "orderId", "amount", "currency", "successUrl", "failUrl", "callbackUrl"]

  const WoopaySignedFields: seq<string> :=
    ["merchantId", "orderId", "amount", "currency", "callbackUrl"]

  function SignedFields(p: Provider): seq<string> {
    match p
    case Bog => BogSignedFields
    case Woopay => WoopaySignedFields
  }

  /** `orderedKeys.map((k) => payload[k] ?? '')`. */
  function FieldValues(payload: Payload, keys: seq<string>): (vs: seq<string>)
    ensures |vs| == |keys|
    ensures forall i :: 0 <= i < |keys| ==> vs[i] == Field(payload, keys[i])
  {
    seq(|keys|, i requires 0 <= i < |keys| => Field(payload, keys[i]))
  }

  /** The string that is signed: the field values joined with `|`. */
  function SigningString(payload: Payload, keys: seq<string>): string {
    Join(FieldValues(payload, keys), '|')
  }

  /** The signature `p`'s builder attaches to `payload`. */
  function BuildSignature(c: Config, hmac: Hmac, p: Provider, payload: Payload): string {
    hmac(SecretKey(c, p), SigningString(payload, SignedFields(p)))
  }

  /** Two payloads that agree on the signed fields carry the same signature,
      whatever else they contain. */
  lemma SignatureDependsOnlyOnSignedFields(c: Config, hmac: Hmac, p: Provider, a: Payload, b: Payload)
    requires forall i :: 0 <= i < |SignedFields(p)| ==> Field(a, SignedFields(p)[i]) == Field(b, SignedFields(p)[i])
    ensures BuildSignature(c, hmac, p, a) == BuildSignature(c, hmac, p, b)
  {
    assert FieldValues(a, SignedFields(p)) == FieldValues(b, SignedFields(p));
  }

  /** The descriptive fields are outside the signature: changing the
      description, the customer e-mail, the network, the API key or the
      signature itself never changes it. */
  lemma UnsignedFieldsDoNotMatter(c: Config, hmac: Hmac, p: Provider, payload: Payload, k: string, v: string)
    requires k in {"description", "customerEmail", "network", "apiKey", "signature"}
    ensures BuildSignature(c, hmac, p, payload[k := v]) == BuildSignature(c, hmac, p, payload)
  {
    forall i | 0 <= i < |SignedFields(p)|
      ensures Field(payload[k := v], SignedFields(p)[i]) == Field(payload, SignedFields(p)[i])
    {
      assert SignedFields(p)[i] != k;
    }
    SignatureDependsOnlyOnSignedFields(c, hmac, p, payload[k := v], payload);
  }

  /** No signed value contains the `|` delimiter. */
  predicate DelimiterFree(payload: Payload, keys: seq<string>) {
    forall i :: 0 <= i < |keys| ==> '|' !in Field(payload, keys[i])
  }

  /** When no value contains `|`, the signing string determines every
      signed value: two payloads with equal signing strings agree field by
      field. */
  lemma SigningStringInjective(a: Payload, b: Payload, keys: seq<string>)
    requires DelimiterFree(a, keys) && DelimiterFree(b, keys)
    requires SigningString(a, keys) == SigningString(b, keys)
    ensures forall i :: 0 <= i < |keys| ==> Field(a, keys[i]) == Field(b, keys[i])
  {
    JoinInjective(FieldValues(a, keys), FieldValues(b, keys), '|');
  }

  /** `hmac` keyed with `key` never maps two messages to one digest (the
      collision resistance the scheme relies on). */
  ghost predicate CollisionFree(hmac: Hmac, key: string) {
    forall m1, m2 :: hmac(key, m1) == hmac(key, m2) ==> m1 == m2
  }

  /** With a collision-free HMAC, changing exactly one signed field
      changes the signature, whatever characters the values contain. */
  lemma SignatureDetectsOneChange(c: Config, hmac: Hmac, p: Provider, a: Payload, b: Payload, i: nat)
    requires CollisionFree(hmac, SecretKey(c, p))
    requires i < |SignedFields(p)| && Field(a, SignedFields(p)[i]) != Field(b, SignedFields(p)[i])
    requires forall j :: 0 <= j < |SignedFields(p)| && j != i ==> Field(a, SignedFields(p)[j]) == Field(b, SignedFields(p)[j])
    ensures BuildSignature(c, hmac, p, a) != BuildSignature(c, hmac, p, b)
  {
    JoinOneChange(FieldValues(a, SignedFields(p)), FieldValues(b, SignedFields(p)), '|', i);
  }

  /** With a collision-free HMAC and `|`-free values, changing any signed
      fields, one or several at once, changes the signature. Without the
      `|`-freeness two changes can cancel out: moving a `|` from the end of
      one value to the start of the next keeps the signing string. */
  lemma SignatureDetectsChange(c: Config, hmac: Hmac, p: Provider, a: Payload, b: Payload, i: nat)
    requires CollisionFree(hmac, SecretKey(c, p))
    requires DelimiterFree(a, SignedFields(p)) && DelimiterFree(b, SignedFields(p))
    requires i < |SignedFields(p)| && Field(a, SignedFields(p)[i]) != Field(b, SignedFields(p)[i])
    ensures BuildSignature(c, hmac, p, a) != BuildSignature(c, hmac, p, b)
  {
    if BuildSignature(c, hmac, p, a) == BuildSignature(c, hmac, p, b) {
      SigningStringInjective(a, b, SignedFields(p));
    }
  }
}

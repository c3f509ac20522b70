/** The decision logic of the four hosted-checkout endpoints of
    server/server.js: `POST /api/payments/{bog,woopay}/create-order` and
    `POST /api/payments/{bog,woopay}/callback`. The two providers' handlers
    differ only in their constants, so each pair is one function of the
    provider. */
module PaymentEndpoints {
  import opened JsString
  import opened Optional
  import opened OrderTotal
  import opened PaymentConfig
  import opened Signing
  import opened RedirectPayload

  /** A JSON response body. `Checkout.provider` is present only for WooPay. */
  datatype Body =
    | Checkout(gatewayUrl: string, formMethod: string, payload: Payload, provider: Option<string>, message: string)
    | Error(error: string)
    | Ack(received: bool, valid: bool)
    | NoBody

  datatype Response = Response(status: int, body: Body)

  function NotActiveError(p: Provider): string {
    match p
    case Bog => "PAYMENT_PROVIDER is not set to bog."
    case Woopay => "PAYMENT_PROVIDER is not set to woopay."
  }

  function NotConfiguredError(p: Provider): string {
    match p
    case Bog => "Bank of Georgia is not configured. Set BOG_GATEWAY_URL, BOG_MERCHANT_ID, BOG_TERMINAL_ID, BOG_SECRET_KEY."
    case Woopay => "WooPay is not configured. Set WOOPAY_GATEWAY_URL, WOOPAY_MERCHANT_ID, WOOPAY_SECRET_KEY."
  }

  function CallbackNotConfiguredError(p: Provider): string {
    match p
    case Bog => "Bank of Georgia is not configured."
    case Woopay => "WooPay is not configured."
  }

  const GatewayMissingError := "Gateway URL is missing."
  const CheckoutMessage := "Submit payload to gatewayUrl to continue checkout."

  function ProviderTag(p: Provider): Option<string> {
    match p
    case Bog => None
    case Woopay => Some("woopay")
  }

  /** The create-order handler. Its checks run in order: wrong provider
      (400), provider not configured (500), no item with a finite positive
      price (400); otherwise the signed payload is returned with the
      configured gateway. The handler's "Gateway URL is missing" branch can
      never be taken: a configured provider has a gateway URL. */
  function CreateOrder(
    c: Config, hmac: Hmac, p: Provider, req: Request, items: seq<LineItem>, metadata: Metadata, now: nat): (r: Response)
    ensures !IsActive(c, p) ==> r == Response(400, Error(NotActiveError(p)))
    ensures IsActive(c, p) && !IsConfigured(c, p) ==> r == Response(500, Error(NotConfiguredError(p)))
    ensures IsActive(c, p) && IsConfigured(c, p) && (forall i :: 0 <= i < |items| ==> !Counts(items[i]))
      ==> r == Response(400, Error(InvalidTotalError))
    ensures IsActive(c, p) && IsConfigured(c, p) && (exists i :: 0 <= i < |items| && Counts(items[i]))
      ==> && r.status == 200 && r.body.Checkout?
          && r.body.gatewayUrl == GatewayUrl(c, p) && r.body.gatewayUrl != ""
          && r.body.formMethod == "POST" && r.body.provider == ProviderTag(p)
          && r.body.payload == BuildRedirectPayload(c, hmac, p, req, items, metadata, now).payload
    ensures r.body != Error(GatewayMissingError)
  {
    if !IsActive(c, p) then Response(400, Error(NotActiveError(p)))
    else if !IsConfigured(c, p) then Response(500, Error(NotConfiguredError(p)))
    else
      match BuildRedirectPayload(c, hmac, p, req, items, metadata, now)
      case BuildError(e) => Response(400, Error(e))
      case Built(payload, gatewayUrl) =>
        if gatewayUrl == "" then Response(500, Error(GatewayMissingError))
        else Response(200, Checkout(gatewayUrl, "POST", payload, ProviderTag(p), CheckoutMessage))
  }

  /** `a || b || ...` over the named fields of a body: the first non-empty
      one, or "" when all are missing or empty. */
  function FirstOf(body: Payload, keys: seq<string>): (v: string)
    ensures v == "" <==> forall i :: 0 <= i < |keys| ==> Field(body, keys[i]) == ""
    ensures v != "" ==>
      exists i :: 0 <= i < |keys| && v == Field(body, keys[i]) && (forall j :: 0 <= j < i ==> Field(body, keys[j]) == "")
  {
    if |keys| == 0 then "" else Or(Field(body, keys[0]), FirstOf(body, keys[1..]))
  }

  /** The field names a provider's callback may carry its signature under. */
  function SignatureKeys(p: Provider): seq<string> {
    match p
    case Bog => ["signature", "SIGNATURE", "sign", "SIGN"]
    case Woopay => ["signature", "SIGNATURE", "sig", "SIG"]
  }

  /** The eight values Bank of Georgia's callback re-signs, as an object. */
  function BogSignedObject(
    merchantId: string, terminalId: string, orderId: string, amount: string, currency: string,
    successUrl: string, failUrl: string, callbackUrl: string): (m: Payload)
    ensures Field(m, "merchantId") == merchantId && Field(m, "terminalId") == terminalId
    ensures Field(m, "orderId") == orderId && Field(m, "amount") == amount && Field(m, "currency") == currency
    ensures Field(m, "successUrl") == successUrl && Field(m, "failUrl") == failUrl
    ensures Field(m, "callbackUrl") == callbackUrl
  {
    map[
      "merchantId" := merchantId,
      "terminalId" := terminalId,
      "orderId" := orderId,
      "amount" := amount,
      "currency" := currency,
      "successUrl" := successUrl,
      "failUrl" := failUrl,
      "callbackUrl" := callbackUrl]
  }

  /** The five values WooPay's callback re-signs, as an object. */
  function WoopaySignedObject(
    merchantId: string, orderId: string, amount: string, currency: string, callbackUrl: string): (m: Payload)
    ensures Field(m, "merchantId") == merchantId
    ensures Field(m, "orderId") == orderId && Field(m, "amount") == amount && Field(m, "currency") == currency
    ensures Field(m, "callbackUrl") == callbackUrl
  {
    map[
      "merchantId" := merchantId,
      "orderId" := orderId,
      "amount" := amount,
      "currency" := currency,
      "callbackUrl" := callbackUrl]
  }

  /** The object the callback handler re-signs: each signed field from its
      camel-case or alternative spelling, the merchant and terminal falling
      back to the configured ones, the currency upper-cased. */
  function CallbackFields(c: Config, p: Provider, body: Payload): Payload {
    match p
    case Bog =>
      BogSignedObject(
        Or(FirstOf(body, ["merchantId", "merchant_id"]), c.bog.merchantId),
        Or(FirstOf(body, ["terminalId", "terminal_id"]), c.bog.terminalId),
        FirstOf(body, ["orderId", "order_id", "ORDER_ID"]),
        FirstOf(body, ["amount", "AMOUNT"]),
        ToUpper(Or(Or(FirstOf(body, ["currency", "CURRENCY"]), c.bog.currency), "")),
        Or(FirstOf(body, ["successUrl", "SUCCESS_URL"]), ""),
        Or(FirstOf(body, ["failUrl", "FAIL_URL"]), ""),
        Or(FirstOf(body, ["callbackUrl", "CALLBACK_URL"]), ""))
    case Woopay =>
      WoopaySignedObject(
        Or(FirstOf(body, ["merchantId", "merchant_id"]), c.woopay.merchantId),
        FirstOf(body, ["orderId", "order_id", "ORDER_ID"]),
        FirstOf(body, ["amount", "AMOUNT"]),
        ToUpper(Or(Or(FirstOf(body, ["currency", "CURRENCY"]), c.woopay.currency), "")),
        Or(FirstOf(body, ["callbackUrl", "CALLBACK_URL"]), ""))
  }

  /** The signature the callback handler expects for `body`. */
  function ExpectedSignature(c: Config, hmac: Hmac, p: Provider, body: Payload): string {
    BuildSignature(c, hmac, p, CallbackFields(c, p, body))
  }

  /** The callback handler. Only the active, configured provider answers.
      A body without a signature is accepted; one with a signature is valid
      exactly when it equals the recomputed one, and an invalid one is
      answered with status 400. */
  function Callback(c: Config, hmac: Hmac, p: Provider, body: Payload): (r: Response)
    ensures !IsActive(c, p) ==> r == Response(404, NoBody)
    ensures IsActive(c, p) && !IsConfigured(c, p) ==> r == Response(500, Error(CallbackNotConfiguredError(p)))
    ensures IsActive(c, p) && IsConfigured(c, p) ==>
      && r.body.Ack? && r.body.received
      && (r.status == 200 <==> r.body.valid)
      && (r.status == 400 <==> !r.body.valid)
      && (r.body.valid <==>
            (FirstOf(body, SignatureKeys(p)) == ""
             || FirstOf(body, SignatureKeys(p)) == ExpectedSignature(c, hmac, p, body)))
  {
    if !IsActive(c, p) then Response(404, NoBody)
    else if !IsConfigured(c, p) then Response(500, Error(CallbackNotConfiguredError(p)))
    else
      var provided := FirstOf(body, SignatureKeys(p));
      var valid := if provided != "" then ExpectedSignature(c, hmac, p, body) == provided else true;
      if !valid then Response(400, Ack(true, false))
      else Response(200, Ack(true, true))
  }

  /** Whatever else it contains, a callback that carries no signature under
      any of the provider's signature field names is accepted. */
  lemma UnsignedCallbackAccepted(c: Config, hmac: Hmac, p: Provider, body: Payload)
    requires IsActive(c, p) && IsConfigured(c, p)
    requires forall k :: k in SignatureKeys(p) ==> Field(body, k) == ""
    ensures Callback(c, hmac, p, body) == Response(200, Ack(true, true))
  {
    var keys := SignatureKeys(p);
    assert forall i :: 0 <= i < |keys| ==> Field(body, keys[i]) == "" by {
      forall i | 0 <= i < |keys| ensures Field(body, keys[i]) == "" {
        assert keys[i] in keys;
      }
    }
  }

  /** `a || b || ...` is `a` when `a` is non-empty. */
  lemma FirstOfHead(body: Payload, keys: seq<string>)
    requires |keys| > 0 && Field(body, keys[0]) != ""
    ensures FirstOf(body, keys) == Field(body, keys[0])
  {
  }

  /** The values a callback body gives to the signed fields, when each is
      present under its camel-case name and the currency is upper-case. */
  predicate EchoReady(p: Provider, body: Payload) {
    && (forall i :: 0 <= i < |SignedFields(p)| ==> Field(body, SignedFields(p)[i]) != "")
    && ToUpper(Field(body, "currency")) == Field(body, "currency")
  }

  lemma EchoCommon(c: Config, p: Provider, body: Payload)
    requires EchoReady(p, body)
    ensures Field(CallbackFields(c, p, body), "merchantId") == Field(body, "merchantId")
    ensures Field(CallbackFields(c, p, body), "orderId") == Field(body, "orderId")
    ensures Field(CallbackFields(c, p, body), "amount") == Field(body, "amount")
    ensures Field(CallbackFields(c, p, body), "currency") == Field(body, "currency")
    ensures Field(CallbackFields(c, p, body), "callbackUrl") == Field(body, "callbackUrl")
  {
    var fs := SignedFields(p);
    assert fs[0] == "merchantId";
    assert Field(body, "merchantId") != "";
    assert Field(body, "orderId") != "" by { assert fs[if p == Bog then 2 else 1] == "orderId"; }
    assert Field(body, "amount") != "" by { assert fs[if p == Bog then 3 else 2] == "amount"; }
    assert Field(body, "currency") != "" by { assert fs[if p == Bog then 4 else 3] == "currency"; }
    assert Field(body, "callbackUrl") != "" by { assert fs[|fs| - 1] == "callbackUrl"; }
    FirstOfHead(body, ["merchantId", "merchant_id"]);
    FirstOfHead(body, ["orderId", "order_id", "ORDER_ID"]);
    FirstOfHead(body, ["amount", "AMOUNT"]);
    FirstOfHead(body, ["currency", "CURRENCY"]);
    FirstOfHead(body, ["callbackUrl", "CALLBACK_URL"]);
  }

  lemma EchoBogOnly(c: Config, body: Payload)
    requires EchoReady(Bog, body)
    ensures Field(CallbackFields(c, Bog, body), "terminalId") == Field(body, "terminalId")
    ensures Field(CallbackFields(c, Bog, body), "successUrl") == Field(body, "successUrl")
    ensures Field(CallbackFields(c, Bog, body), "failUrl") == Field(body, "failUrl")
  {
    var fs := SignedFields(Bog);
    assert Field(body, fs[1]) != "" && Field(body, fs[5]) != "" && Field(body, fs[6]) != "";
    FirstOfHead(body, ["terminalId", "terminal_id"]);
    FirstOfHead(body, ["successUrl", "SUCCESS_URL"]);
    FirstOfHead(body, ["failUrl", "FAIL_URL"]);
  }

  /** When every signed field of a body is present under its camel-case
      name and its currency is already upper-case, the handler re-signs
      exactly the body's own values. */
  lemma CallbackFieldsEcho(c: Config, p: Provider, body: Payload)
    requires forall i :: 0 <= i < |SignedFields(p)| ==> Field(body, SignedFields(p)[i]) != ""
    requires ToUpper(Field(body, "currency")) == Field(body, "currency")
    ensures forall i :: 0 <= i < |SignedFields(p)| ==>
      Field(CallbackFields(c, p, body), SignedFields(p)[i]) == Field(body, SignedFields(p)[i])
  {
    match p
    case Bog => EchoBog(c, body);
    case Woopay => EchoWoopay(c, body);
  }

  lemma EchoBog(c: Config, body: Payload)
    requires EchoReady(Bog, body)
    ensures forall i :: 0 <= i < |BogSignedFields| ==>
      Field(CallbackFields(c, Bog, body), BogSignedFields[i]) == Field(body, BogSignedFields[i])
  {
    EchoCommon(c, Bog, body);
    EchoBogOnly(c, body);
    var fs, cf := BogSignedFields, CallbackFields(c, Bog, body);
    forall i | 0 <= i < |fs| ensures Field(cf, fs[i]) == Field(body, fs[i]) {
      var k := fs[i];
      assert || k == "merchantId" || k == "terminalId" || k == "orderId" || k == "amount"
             || k == "currency" || k == "successUrl" || k == "failUrl" || k == "callbackUrl";
    }
  }

  lemma EchoWoopay(c: Config, body: Payload)
    requires EchoReady(Woopay, body)
    ensures forall i :: 0 <= i < |WoopaySignedFields| ==>
      Field(CallbackFields(c, Woopay, body), WoopaySignedFields[i]) == Field(body, WoopaySignedFields[i])
  {
    EchoCommon(c, Woopay, body);
    var fs, cf := WoopaySignedFields, CallbackFields(c, Woopay, body);
    forall i | 0 <= i < |fs| ensures Field(cf, fs[i]) == Field(body, fs[i]) {
      var k := fs[i];
      assert k == "merchantId" || k == "orderId" || k == "amount" || k == "currency" || k == "callbackUrl";
    }
  }

  /** The payload a successful create-order returns. */
  function OrderPayload(
    c: Config, hmac: Hmac, p: Provider, req: Request, items: seq<LineItem>, metadata: Metadata, now: nat): Payload
    requires CreateOrder(c, hmac, p, req, items, metadata, now).body.Checkout?
  {
    CreateOrder(c, hmac, p, req, items, metadata, now).body.payload
  }

  /** What a signed payload of `p` that the callback can check looks
      like: every signed field present, the currency upper-case, the
      signature valid and carried only under its camel-case name. */
  predicate CheckablePayload(c: Config, hmac: Hmac, p: Provider, pl: Payload) {
    && (forall i :: 0 <= i < |SignedFields(p)| ==> Field(pl, SignedFields(p)[i]) != "")
    && ToUpper(Field(pl, "currency")) == Field(pl, "currency")
    && SignatureValid(c, hmac, p, pl)
    && (forall j :: 1 <= j < |SignatureKeys(p)| ==> SignatureKeys(p)[j] !in pl)
  }

  /** The callback accepts every checkable payload. */
  lemma CallbackAcceptsCheckable(c: Config, hmac: Hmac, p: Provider, pl: Payload)
    requires IsActive(c, p) && IsConfigured(c, p)
    requires CheckablePayload(c, hmac, p, pl)
    ensures Callback(c, hmac, p, pl) == Response(200, Ack(true, true))
  {
    CheckableSignatureMatches(c, hmac, p, pl);
    CallbackAccepts(c, hmac, p, pl);
  }

  /** The signature a checkable payload carries, if any, is the one the
      callback recomputes. */
  lemma CheckableSignatureMatches(c: Config, hmac: Hmac, p: Provider, pl: Payload)
    requires CheckablePayload(c, hmac, p, pl)
    ensures FirstOf(pl, SignatureKeys(p)) == "" || FirstOf(pl, SignatureKeys(p)) == ExpectedSignature(c, hmac, p, pl)
  {
    FirstOfOnlyFirst(pl, SignatureKeys(p));
    ExpectedIsCarried(c, hmac, p, pl);
  }

  /** The callback recomputes the signature a checkable payload carries. */
  lemma ExpectedIsCarried(c: Config, hmac: Hmac, p: Provider, pl: Payload)
    requires CheckablePayload(c, hmac, p, pl)
    ensures ExpectedSignature(c, hmac, p, pl) == Field(pl, "signature")
  {
    CallbackFieldsEcho(c, p, pl);
    SignatureDependsOnlyOnSignedFields(c, hmac, p, CallbackFields(c, p, pl), pl);
  }

  /** When only the first of the alternative names is present, `a || b || ...`
      reads it. */
  lemma FirstOfOnlyFirst(body: Payload, keys: seq<string>)
    requires |keys| > 0 && forall j :: 1 <= j < |keys| ==> keys[j] !in body
    ensures FirstOf(body, keys) == Field(body, keys[0])
  {
    if Field(body, keys[0]) == "" {
      var rest := keys[1..];
      assert forall i :: 0 <= i < |rest| ==> Field(body, rest[i]) == "" by {
        forall i | 0 <= i < |rest| ensures Field(body, rest[i]) == "" {
          assert rest[i] == keys[i + 1];
        }
      }
    }
  }

  /** An active, configured provider accepts a callback without a signature
      or with the expected one. */
  lemma CallbackAccepts(c: Config, hmac: Hmac, p: Provider, body: Payload)
    requires IsActive(c, p) && IsConfigured(c, p)
    requires FirstOf(body, SignatureKeys(p)) == "" || FirstOf(body, SignatureKeys(p)) == ExpectedSignature(c, hmac, p, body)
    ensures Callback(c, hmac, p, body) == Response(200, Ack(true, true))
  {
  }

  /** Altering one signed field to a non-empty value keeps every signed
      field non-empty and changes no other signed field. */
  lemma TamperKeepsShape(p: Provider, pl: Payload, i: nat, v: string)
    requires forall j :: 0 <= j < |SignedFields(p)| ==> Field(pl, SignedFields(p)[j]) != ""
    requires ToUpper(Field(pl, "currency")) == Field(pl, "currency")
    requires i < |SignedFields(p)| && v != ""
    requires SignedFields(p)[i] == "currency" ==> ToUpper(v) == v
    ensures var t := pl[SignedFields(p)[i] := v];
      && (forall j :: 0 <= j < |SignedFields(p)| ==> Field(t, SignedFields(p)[j]) != "")
      && (forall j :: 0 <= j < |SignedFields(p)| && j != i ==> Field(t, SignedFields(p)[j]) == Field(pl, SignedFields(p)[j]))
      && ToUpper(Field(t, "currency")) == Field(t, "currency")
      && Field(t, "signature") == Field(pl, "signature")
  {
    var fs := SignedFields(p);
    var k := fs[i];
    var t := pl[k := v];
    assert k != "signature";
    forall j | 0 <= j < |fs| ensures Field(t, fs[j]) != "" && (j != i ==> Field(t, fs[j]) == Field(pl, fs[j])) {
      if j != i {
        SignedFieldsDistinct(p, i, j);
        assert Field(t, fs[j]) == Field(pl, fs[j]);
      }
    }
    if k != "currency" {
      assert Field(t, "currency") == Field(pl, "currency");
    }
  }

  /** The signed field names of either provider are pairwise distinct. */
  lemma SignedFieldsDistinct(p: Provider, i: nat, j: nat)
    requires i < |SignedFields(p)| && j < |SignedFields(p)| && i != j
    ensures SignedFields(p)[i] != SignedFields(p)[j]
  {
  }

  /** The callback rejects, with 400, a checkable payload one of whose
      signed fields was altered, provided the HMAC is collision-free and the
      signature is non-empty. Any characters may appear in the old and new
      values, `|` included. The new value must be non-empty: a blanked
      merchant id, terminal id or currency is read back from the
      configuration (server/server.js:263-264, 267, 338, 341), so blanking
      one that equals the configured value goes unnoticed. A new currency
      must be upper-case, as the handler upper-cases it. */
  lemma CallbackRejectsTampered(c: Config, hmac: Hmac, p: Provider, pl: Payload, i: nat, v: string)
    requires IsActive(c, p) && IsConfigured(c, p)
    requires CheckablePayload(c, hmac, p, pl)
    requires CollisionFree(hmac, SecretKey(c, p))
    requires Field(pl, "signature") != ""
    requires i < |SignedFields(p)|
    requires v != "" && v != Field(pl, SignedFields(p)[i])
    requires SignedFields(p)[i] == "currency" ==> ToUpper(v) == v
    ensures Callback(c, hmac, p, pl[SignedFields(p)[i] := v]) == Response(400, Ack(true, false))
  {
    var t := pl[SignedFields(p)[i] := v];
    TamperKeepsShape(p, pl, i, v);
    CallbackFieldsEcho(c, p, t);
    SignatureDependsOnlyOnSignedFields(c, hmac, p, CallbackFields(c, p, t), t);
    SignatureDetectsOneChange(c, hmac, p, t, pl, i);
    FirstOfHead(t, SignatureKeys(p));
  }

  /** A built payload of a configured provider with a normalised currency
      is checkable. */
  lemma BuiltPayloadCheckable(
    c: Config, hmac: Hmac, p: Provider, req: Request, items: seq<LineItem>, metadata: Metadata, now: nat)
    requires IsConfigured(c, p) && NormalCurrency(Currency(c, p))
    requires BuildRedirectPayload(c, hmac, p, req, items, metadata, now).Built?
    ensures CheckablePayload(c, hmac, p, BuildRedirectPayload(c, hmac, p, req, items, metadata, now).payload)
  {
    var pl := BuildRedirectPayload(c, hmac, p, req, items, metadata, now).payload;
    SignedFieldsOfBuiltPayload(c, hmac, p, req, items, metadata, now);
    AliasesNotBuilt(p);
  }

  /** A builder never writes a signature under an alternative name. */
  lemma AliasesNotBuilt(p: Provider)
    ensures forall j :: 1 <= j < |SignatureKeys(p)| ==> SignatureKeys(p)[j] !in BaseKeys(p) + {"apiKey"}
  {
    match p
    case Bog => BogAliasesNotBuilt();
    case Woopay => WoopayAliasesNotBuilt();
  }

  lemma BogAliasesNotBuilt()
    ensures "SIGNATURE" !in BaseKeys(Bog) + {"apiKey"}
    ensures "sign" !in BaseKeys(Bog) + {"apiKey"}
    ensures "SIGN" !in BaseKeys(Bog) + {"apiKey"}
  {
  }

  lemma WoopayAliasesNotBuilt()
    ensures "SIGNATURE" !in BaseKeys(Woopay) + {"apiKey"}
    ensures "sig" !in BaseKeys(Woopay) + {"apiKey"}
    ensures "SIG" !in BaseKeys(Woopay) + {"apiKey"}
  {
  }

  /** The payload of a successful create-order is checkable. */
  lemma OrderPayloadCheckable(
    c: Config, hmac: Hmac, p: Provider, req: Request, items: seq<LineItem>, metadata: Metadata, now: nat)
    requires NormalCurrency(Currency(c, p))
    requires CreateOrder(c, hmac, p, req, items, metadata, now).status == 200
    ensures IsActive(c, p) && IsConfigured(c, p)
    ensures CheckablePayload(c, hmac, p, OrderPayload(c, hmac, p, req, items, metadata, now))
  {
    assert IsActive(c, p) && IsConfigured(c, p);
    assert BuildRedirectPayload(c, hmac, p, req, items, metadata, now).Built?;
    BuiltPayloadCheckable(c, hmac, p, req, items, metadata, now);
  }

  /** Round trip: when the gateway posts back, unchanged, the payload a
      successful create-order produced, the callback accepts it. */
  lemma CallbackAcceptsOwnPayload(
    c: Config, hmac: Hmac, p: Provider, req: Request, items: seq<LineItem>, metadata: Metadata, now: nat)
    requires NormalCurrency(Currency(c, p))
    requires CreateOrder(c, hmac, p, req, items, metadata, now).status == 200
    ensures Callback(c, hmac, p, OrderPayload(c, hmac, p, req, items, metadata, now)) == Response(200, Ack(true, true))
  {
    OrderPayloadCheckable(c, hmac, p, req, items, metadata, now);
    CallbackAcceptsCheckable(c, hmac, p, OrderPayload(c, hmac, p, req, items, metadata, now));
  }

  /** Tamper detection for the payload of a successful create-order:
      altering one of its signed fields to another non-empty value makes
      the callback reject it, also when the return URLs come from an
      `Origin` header or configured values that contain `|`. */
  lemma CallbackRejectsTamperedOrder(
    c: Config, hmac: Hmac, p: Provider, req: Request, items: seq<LineItem>, metadata: Metadata, now: nat,
    i: nat, v: string)
    requires NormalCurrency(Currency(c, p))
    requires CreateOrder(c, hmac, p, req, items, metadata, now).status == 200
    requires CollisionFree(hmac, SecretKey(c, p))
    requires Field(OrderPayload(c, hmac, p, req, items, metadata, now), "signature") != ""
    requires i < |SignedFields(p)|
    requires v != "" && v != Field(OrderPayload(c, hmac, p, req, items, metadata, now), SignedFields(p)[i])
    requires SignedFields(p)[i] == "currency" ==> ToUpper(v) == v
    ensures var pl := OrderPayload(c, hmac, p, req, items, metadata, now);
      Callback(c, hmac, p, pl[SignedFields(p)[i] := v]) == Response(400, Ack(true, false))
  {
    OrderPayloadCheckable(c, hmac, p, req, items, metadata, now);
    CallbackRejectsTampered(c, hmac, p, OrderPayload(c, hmac, p, req, items, metadata, now), i, v);
  }
}

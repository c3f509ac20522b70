/** Redirect-payload construction for the hosted checkouts
    (`resolveReturnUrl`, `buildBogRedirectPayload`,
    `buildWoopayRedirectPayload` in server/server.js). */
module RedirectPayload {
  import opened JsString
  import opened Decimal
  import opened OrderTotal
  import opened PaymentConfig
  import opened Signing

  /** What the builders read from the incoming request: the `Origin` header
      ("" when absent), the protocol and the `Host` header. */
  datatype Request = Request(originHeader: string, protocol: string, host: string)

  /** `resolveReturnUrl(req, fallback)`. */
  function ResolveReturnUrl(req: Request, fallback: string): (url: string)
    ensures fallback != "" ==> url == fallback
    ensures fallback == "" && req.originHeader != "" ==> url == req.originHeader
    ensures fallback == "" && req.originHeader == "" ==> url == req.protocol + "://" + req.host
  {
    if fallback != "" then fallback
    else Or(req.originHeader, req.protocol + "://" + req.host)
  }

  /** The caller-supplied `metadata`; "" stands for a missing field. */
  datatype Metadata = Metadata(description: string, email: string, network: string)

  datatype BuildResult = Built(payload: Payload, gatewayUrl: string) | BuildError(error: string)

  const InvalidTotalError := "Invalid order total."
  const DefaultDescription := "Order payment"

  function OrderIdPrefix(p: Provider): string {
    match p
    case Bog => "ORD-"
    case Woopay => "WP-"
  }

  /** The paths the return URLs fall back to, after the request origin. */
  function SuccessPath(p: Provider): string {
    match p
    case Bog => "/payments/bog/success"
    case Woopay => "/payments/woopay/success"
  }

  function FailPath(p: Provider): string {
    match p
    case Bog => "/payments/bog/fail"
    case Woopay => "/payments/woopay/fail"
  }

  function CallbackPath(p: Provider): string {
    match p
    case Bog => "/api/payments/bog/callback"
    case Woopay => "/api/payments/woopay/callback"
  }

  function SuccessOverride(c: Config, p: Provider): string {
    match p
    case Bog => c.bog.successUrl
    case Woopay => c.woopay.successUrl
  }

  function FailOverride(c: Config, p: Provider): string {
    match p
    case Bog => c.bog.failUrl
    case Woopay => c.woopay.failUrl
  }

  function CallbackOverride(c: Config, p: Provider): string {
    match p
    case Bog => c.bog.callbackUrl
    case Woopay => c.woopay.callbackUrl
  }

  /** The fields every payload of `p` carries, signature included. */
  function BaseKeys(p: Provider): set<string> {
    match p
    case Bog =>
      {"merchantId", "terminalId", "orderId", "amount", "currency", "description",
       "customerEmail", "successUrl", "failUrl", "callbackUrl", "signature"}
    case Woopay =>
      {"merchantId", "orderId", "amount", "currency", "description", "customerEmail",
       "network", "successUrl", "failUrl", "callbackUrl", "signature"}
  }

  /** The signature a builder attached agrees with the payload it is attached to. */
  predicate SignatureValid(c: Config, hmac: Hmac, p: Provider, payload: Payload) {
    Field(payload, "signature") == BuildSignature(c, hmac, p, payload)
  }

  /** Attaching the signature as the last step leaves it valid, because the
      `signature` field is not itself signed. */
  lemma SignLast(c: Config, hmac: Hmac, p: Provider, payload: Payload)
    ensures SignatureValid(c, hmac, p, payload["signature" := BuildSignature(c, hmac, p, payload)])
  {
    UnsignedFieldsDoNotMatter(c, hmac, p, payload, "signature", BuildSignature(c, hmac, p, payload));
  }

  /** The object literal of `buildBogRedirectPayload`, before signing. */
  function BogFields(
    merchantId: string, terminalId: string, orderId: string, amount: string, currency: string,
    description: string, customerEmail: string, successUrl: string, failUrl: string, callbackUrl: string): (m: Payload)
    ensures m.Keys == BaseKeys(Bog) - {"signature"}
    ensures Field(m, "merchantId") == merchantId && Field(m, "terminalId") == terminalId
    ensures Field(m, "orderId") == orderId && Field(m, "amount") == amount && Field(m, "currency") == currency
    ensures Field(m, "description") == description && Field(m, "customerEmail") == customerEmail
    ensures Field(m, "successUrl") == successUrl && Field(m, "failUrl") == failUrl
    ensures Field(m, "callbackUrl") == callbackUrl
  {
    map[
      "merchantId" := merchantId,
      "terminalId" := terminalId,
      "orderId" := orderId,
      "amount" := amount,
      "currency" := currency,
      "description" := description,
      "customerEmail" := customerEmail,
      "successUrl" := successUrl,
      "failUrl" := failUrl,
      "callbackUrl" := callbackUrl]
  }

  /** `buildBogRedirectPayload`; `now` is `Date.now()`. */
  function BuildBogRedirectPayload(
    c: Config, hmac: Hmac, req: Request, items: seq<LineItem>, metadata: Metadata, now: nat): (r: BuildResult)
    ensures r.BuildError? <==> CalculateOrderTotal(items) == 0.0
    ensures r.BuildError? ==> r.error == InvalidTotalError
    ensures r.Built? ==>
      var pl, origin := r.payload, ResolveReturnUrl(req, "");
      && r.gatewayUrl == c.bog.gatewayUrl
      && pl.Keys == BaseKeys(Bog)
      && Field(pl, "amount") == ToFixed2(CalculateOrderTotal(items))
      && Field(pl, "currency") == c.bog.currency
      && Field(pl, "merchantId") == c.bog.merchantId
      && Field(pl, "terminalId") == c.bog.terminalId
      && Field(pl, "orderId") == "ORD-" + NatToDecimal(now)
      && Field(pl, "description") == Or(metadata.description, DefaultDescription)
      && Field(pl, "customerEmail") == metadata.email
      && Field(pl, "successUrl") == Or(c.bog.successUrl, origin + SuccessPath(Bog))
      && Field(pl, "failUrl") == Or(c.bog.failUrl, origin + FailPath(Bog))
      && Field(pl, "callbackUrl") == Or(c.bog.callbackUrl, origin + CallbackPath(Bog))
      && SignatureValid(c, hmac, Bog, pl)
  {
    var amount := CalculateOrderTotal(items);
    // `!amount` adds nothing to `amount <= 0`: a sum of finite prices is never NaN.
    if amount <= 0.0 then BuildError(InvalidTotalError)
    else
      var origin := ResolveReturnUrl(req, "");
      var payload := BogFields(
        c.bog.merchantId, c.bog.terminalId, "ORD-" + NatToDecimal(now), ToFixed2(amount), c.bog.currency,
        Or(metadata.description, DefaultDescription), Or(metadata.email, ""),
        Or(c.bog.successUrl, origin + "/payments/bog/success"),
        Or(c.bog.failUrl, origin + "/payments/bog/fail"),
        Or(c.bog.callbackUrl, origin + "/api/payments/bog/callback"));
      SignLast(c, hmac, Bog, payload);
      Built(payload["signature" := BuildSignature(c, hmac, Bog, payload)], c.bog.gatewayUrl)
  }

  /** The object literal of `buildWoopayRedirectPayload`, before the API
      key and the signature are added. */
  function WoopayFields(
    merchantId: string, orderId: string, amount: string, currency: string, description: string,
    customerEmail: string, network: string, successUrl: string, failUrl: string, callbackUrl: string): (m: Payload)
    ensures m.Keys == BaseKeys(Woopay) - {"signature"}
    ensures Field(m, "merchantId") == merchantId && Field(m, "orderId") == orderId
    ensures Field(m, "amount") == amount && Field(m, "currency") == currency
    ensures Field(m, "description") == description && Field(m, "customerEmail") == customerEmail
    ensures Field(m, "network") == network
    ensures Field(m, "successUrl") == successUrl && Field(m, "failUrl") == failUrl
    ensures Field(m, "callbackUrl") == callbackUrl
  {
    map[
      "merchantId" := merchantId,
      "orderId" := orderId,
      "amount" := amount,
      "currency" := currency,
      "description" := description,
      "customerEmail" := customerEmail,
      "network" := network,
      "successUrl" := successUrl,
      "failUrl" := failUrl,
      "callbackUrl" := callbackUrl]
  }

  /** `buildWoopayRedirectPayload`; `now` is `Date.now()`. */
  function BuildWoopayRedirectPayload(
    c: Config, hmac: Hmac, req: Request, items: seq<LineItem>, metadata: Metadata, now: nat): (r: BuildResult)
    ensures r.BuildError? <==> CalculateOrderTotal(items) == 0.0
    ensures r.BuildError? ==> r.error == InvalidTotalError
    ensures r.Built? ==>
      var pl, origin := r.payload, ResolveReturnUrl(req, "");
      && r.gatewayUrl == c.woopay.gatewayUrl
      && pl.Keys == BaseKeys(Woopay) + (if c.woopay.apiKey != "" then {"apiKey"} else {})
      && Field(pl, "amount") == ToFixed2(CalculateOrderTotal(items))
      && Field(pl, "currency") == c.woopay.currency
      && Field(pl, "merchantId") == c.woopay.merchantId
      && Field(pl, "orderId") == "WP-" + NatToDecimal(now)
      && Field(pl, "description") == Or(metadata.description, DefaultDescription)
      && Field(pl, "customerEmail") == metadata.email
      && Field(pl, "network") == Or(metadata.network, c.woopay.network)
      && Field(pl, "successUrl") == Or(c.woopay.successUrl, origin + SuccessPath(Woopay))
      && Field(pl, "failUrl") == Or(c.woopay.failUrl, origin + FailPath(Woopay))
      && Field(pl, "callbackUrl") == Or(c.woopay.callbackUrl, origin + CallbackPath(Woopay))
      && (c.woopay.apiKey != "" ==> Field(pl, "apiKey") == c.woopay.apiKey)
      && SignatureValid(c, hmac, Woopay, pl)
  {
    var amount := CalculateOrderTotal(items);
    if amount <= 0.0 then BuildError(InvalidTotalError)
    else
      var origin := ResolveReturnUrl(req, "");
      var base := WoopayFields(
        c.woopay.merchantId, "WP-" + NatToDecimal(now), ToFixed2(amount), c.woopay.currency,
        Or(metadata.description, DefaultDescription), Or(metadata.email, ""),
        Or(metadata.network, c.woopay.network),
        Or(c.woopay.successUrl, origin + "/payments/woopay/success"),
        Or(c.woopay.failUrl, origin + "/payments/woopay/fail"),
        Or(c.woopay.callbackUrl, origin + "/api/payments/woopay/callback"));
      var payload := if c.woopay.apiKey != "" then base["apiKey" := c.woopay.apiKey] else base;
      SignLast(c, hmac, Woopay, payload);
      Built(payload["signature" := BuildSignature(c, hmac, Woopay, payload)], c.woopay.gatewayUrl)
  }

  /** The builder of provider `p`. An order is refused exactly when no item
      has a finite positive price; otherwise the payload carries the total to
      two decimals, the provider's currency and merchant, a provider-prefixed
      order id from the clock, return URLs that prefer the configured ones
      over the request origin, the API key only when one is configured, and
      a signature that matches the payload it is attached to. */
  function BuildRedirectPayload(
    c: Config, hmac: Hmac, p: Provider, req: Request, items: seq<LineItem>, metadata: Metadata, now: nat): (r: BuildResult)
    ensures r.BuildError? <==> forall i :: 0 <= i < |items| ==> !Counts(items[i])
    ensures r.BuildError? ==> r.error == InvalidTotalError
    ensures r.Built? ==>
      var pl, origin := r.payload, ResolveReturnUrl(req, "");
      && r.gatewayUrl == GatewayUrl(c, p)
      && pl.Keys == BaseKeys(p) + (if p == Woopay && c.woopay.apiKey != "" then {"apiKey"} else {})
      && Field(pl, "amount") == ToFixed2(CalculateOrderTotal(items))
      && Field(pl, "currency") == Currency(c, p)
      && Field(pl, "merchantId") == MerchantId(c, p)
      && (p == Bog ==> Field(pl, "terminalId") == c.bog.terminalId)
      && Field(pl, "orderId") == OrderIdPrefix(p) + NatToDecimal(now)
      && Field(pl, "successUrl") == (if SuccessOverride(c, p) != "" then SuccessOverride(c, p) else origin + SuccessPath(p))
      && Field(pl, "failUrl") == (if FailOverride(c, p) != "" then FailOverride(c, p) else origin + FailPath(p))
      && Field(pl, "callbackUrl") == (if CallbackOverride(c, p) != "" then CallbackOverride(c, p) else origin + CallbackPath(p))
      && (p == Woopay && c.woopay.apiKey != "" ==> Field(pl, "apiKey") == c.woopay.apiKey)
      && SignatureValid(c, hmac, p, pl)
  {
    match p
    case Bog =>
      BuildBogRedirectPayload(c, hmac, req, items, metadata, now)
    case Woopay =>
      BuildWoopayRedirectPayload(c, hmac, req, items, metadata, now)
  }

  /** For a configured provider with a normalised currency, every signed
      field of a built payload is non-empty. */
  lemma SignedFieldsOfBuiltPayload(
    c: Config, hmac: Hmac, p: Provider, req: Request, items: seq<LineItem>, metadata: Metadata, now: nat)
    requires IsConfigured(c, p) && NormalCurrency(Currency(c, p))
    requires BuildRedirectPayload(c, hmac, p, req, items, metadata, now).Built?
    ensures var pl := BuildRedirectPayload(c, hmac, p, req, items, metadata, now).payload;
      forall i :: 0 <= i < |SignedFields(p)| ==> Field(pl, SignedFields(p)[i]) != ""
  {
    var pl := BuildRedirectPayload(c, hmac, p, req, items, metadata, now).payload;
    var origin := ResolveReturnUrl(req, "");
    assert Field(pl, "amount") == ToFixed2(CalculateOrderTotal(items));
    assert Field(pl, "orderId") == OrderIdPrefix(p) + NatToDecimal(now);
    assert Field(pl, "successUrl") == (if SuccessOverride(c, p) != "" then SuccessOverride(c, p) else origin + SuccessPath(p));
    assert Field(pl, "failUrl") == (if FailOverride(c, p) != "" then FailOverride(c, p) else origin + FailPath(p));
    assert Field(pl, "callbackUrl") == (if CallbackOverride(c, p) != "" then CallbackOverride(c, p) else origin + CallbackPath(p));
    SignedFieldsNonEmpty(c, p, pl, origin, CalculateOrderTotal(items), now);
  }

  /** The signed fields of a payload filled in as the builders fill them are
      all non-empty. */
  lemma SignedFieldsNonEmpty(c: Config, p: Provider, pl: Payload, origin: string, amount: real, now: nat)
    requires IsConfigured(c, p) && NormalCurrency(Currency(c, p)) && amount >= 0.0
    requires Field(pl, "merchantId") == MerchantId(c, p)
    requires p == Bog ==> Field(pl, "terminalId") == c.bog.terminalId
    requires Field(pl, "amount") == ToFixed2(amount)
    requires Field(pl, "currency") == Currency(c, p)
    requires Field(pl, "orderId") == OrderIdPrefix(p) + NatToDecimal(now)
    requires Field(pl, "successUrl") == (if SuccessOverride(c, p) != "" then SuccessOverride(c, p) else origin + SuccessPath(p))
    requires Field(pl, "failUrl") == (if FailOverride(c, p) != "" then FailOverride(c, p) else origin + FailPath(p))
    requires Field(pl, "callbackUrl") == (if CallbackOverride(c, p) != "" then CallbackOverride(c, p) else origin + CallbackPath(p))
    ensures forall i :: 0 <= i < |SignedFields(p)| ==> Field(pl, SignedFields(p)[i]) != ""
  {
    NonEmptyUrl(SuccessOverride(c, p), origin, SuccessPath(p));
    NonEmptyUrl(FailOverride(c, p), origin, FailPath(p));
    NonEmptyUrl(CallbackOverride(c, p), origin, CallbackPath(p));
    assert Field(pl, "orderId")[0] == OrderIdPrefix(p)[0];
    var fs := SignedFields(p);
    forall i | 0 <= i < |fs| ensures Field(pl, fs[i]) != "" {
      var k := fs[i];
      assert || k == "merchantId" || k == "terminalId" || k == "orderId" || k == "amount"
             || k == "currency" || k == "successUrl" || k == "failUrl" || k == "callbackUrl";
      assert k == "terminalId" ==> p == Bog;
    }
  }

  /** A configured URL, or the origin followed by a non-empty path, is never empty. */
  lemma NonEmptyUrl(override: string, origin: string, path: string)
    requires path != ""
    ensures (if override != "" then override else origin + path) != ""
  {
  }
}

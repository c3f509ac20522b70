/** The payment configuration server/server.js reads once from the
    environment at start-up, made an explicit immutable value, and the
    provider-resolution rules over it. */
module PaymentConfig {
  import opened JsString

  /** The process environment. A variable that is unset and one set to the
      empty string read alike: every use of one goes through `||`. */
  type Env = map<string, string>

  datatype Provider = Bog | Woopay

  /** The identifier `PAYMENT_PROVIDER` is compared with. */
  function ProviderName(p: Provider): string {
    match p
    case Bog => "bog"
    case Woopay => "woopay"
  }

  datatype BogSettings = BogSettings(
    gatewayUrl: string, merchantId: string, terminalId: string, secretKey: string,
    callbackUrl: string, successUrl: string, failUrl: string, currency: string)

  datatype WoopaySettings = WoopaySettings(
    gatewayUrl: string, merchantId: string, secretKey: string, apiKey: string,
    callbackUrl: string, successUrl: string, failUrl: string, network: string, currency: string)

  /** `paymentProvider` is `PAYMENT_PROVIDER` lower-cased; `currency` is the
      default currency (`CURRENCY`). */
  datatype Config = Config(
    paymentProvider: string, currency: string, bog: BogSettings, woopay: WoopaySettings)

  /** A currency code as the server stores it: non-empty and upper-case. */
  predicate NormalCurrency(code: string) {
    code != "" && ToUpper(code) == code
  }

  /** What loading from the environment guarantees of a configuration. */
  predicate Normalised(c: Config) {
    && ToLower(c.paymentProvider) == c.paymentProvider
    && NormalCurrency(c.currency)
    && NormalCurrency(c.bog.currency)
    && NormalCurrency(c.woopay.currency)
  }

  /** Every credential, URL and the network are the variable of the same
      name, as read. */
  predicate SettingsFromEnv(c: Config, env: Env) {
    && c.bog.gatewayUrl == Field(env, "BOG_GATEWAY_URL")
    && c.bog.merchantId == Field(env, "BOG_MERCHANT_ID")
    && c.bog.terminalId == Field(env, "BOG_TERMINAL_ID")
    && c.bog.secretKey == Field(env, "BOG_SECRET_KEY")
    && c.bog.callbackUrl == Field(env, "BOG_CALLBACK_URL")
    && c.bog.successUrl == Field(env, "BOG_SUCCESS_URL")
    && c.bog.failUrl == Field(env, "BOG_FAIL_URL")
    && c.woopay.gatewayUrl == Field(env, "WOOPAY_GATEWAY_URL")
    && c.woopay.merchantId == Field(env, "WOOPAY_MERCHANT_ID")
    && c.woopay.secretKey == Field(env, "WOOPAY_SECRET_KEY")
    && c.woopay.apiKey == Field(env, "WOOPAY_API_KEY")
    && c.woopay.callbackUrl == Field(env, "WOOPAY_CALLBACK_URL")
    && c.woopay.successUrl == Field(env, "WOOPAY_SUCCESS_URL")
    && c.woopay.failUrl == Field(env, "WOOPAY_FAIL_URL")
    && c.woopay.network == Field(env, "WOOPAY_NETWORK")
  }

  /** The module-level constants of server/server.js, built from `env`. */
  function LoadConfig(env: Env): (c: Config)
    ensures Normalised(c)
    ensures c.paymentProvider == if Field(env, "PAYMENT_PROVIDER") == "" then "bog"
                                 else ToLower(Field(env, "PAYMENT_PROVIDER"))
    ensures Field(env, "BOG_CURRENCY") != "" ==> c.bog.currency == ToUpper(Field(env, "BOG_CURRENCY"))
    ensures Field(env, "WOOPAY_CURRENCY") != "" ==> c.woopay.currency == ToUpper(Field(env, "WOOPAY_CURRENCY"))
    ensures Field(env, "BOG_CURRENCY") == "" ==> c.bog.currency == c.currency
    ensures Field(env, "WOOPAY_CURRENCY") == "" ==> c.woopay.currency == c.currency
    ensures Field(env, "CURRENCY") == "" ==> c.currency == "GEL"
    ensures Field(env, "CURRENCY") != "" ==> c.currency == ToUpper(Field(env, "CURRENCY"))
    ensures SettingsFromEnv(c, env)
  {
    var defaultCurrency := ToUpper(Or(Field(env, "CURRENCY"), "GEL"));
    ToUpperIdempotent(Or(Field(env, "CURRENCY"), "GEL"));
    ToUpperIdempotent(Or(Field(env, "BOG_CURRENCY"), defaultCurrency));
    ToUpperIdempotent(Or(Field(env, "WOOPAY_CURRENCY"), defaultCurrency));
    ToLowerIdempotent(Or(Field(env, "PAYMENT_PROVIDER"), "bog"));
    Config(
      paymentProvider := ToLower(Or(Field(env, "PAYMENT_PROVIDER"), "bog")),
      currency := defaultCurrency,
      bog := BogSettings(
        gatewayUrl := Field(env, "BOG_GATEWAY_URL"),
        merchantId := Field(env, "BOG_MERCHANT_ID"),
        terminalId := Field(env, "BOG_TERMINAL_ID"),
        secretKey := Field(env, "BOG_SECRET_KEY"),
        callbackUrl := Field(env, "BOG_CALLBACK_URL"),
        successUrl := Field(env, "BOG_SUCCESS_URL"),
        failUrl := Field(env, "BOG_FAIL_URL"),
        currency := ToUpper(Or(Field(env, "BOG_CURRENCY"), defaultCurrency))),
      woopay := WoopaySettings(
        gatewayUrl := Field(env, "WOOPAY_GATEWAY_URL"),
        merchantId := Field(env, "WOOPAY_MERCHANT_ID"),
        secretKey := Field(env, "WOOPAY_SECRET_KEY"),
        apiKey := Field(env, "WOOPAY_API_KEY"),
        callbackUrl := Field(env, "WOOPAY_CALLBACK_URL"),
        successUrl := Field(env, "WOOPAY_SUCCESS_URL"),
        failUrl := Field(env, "WOOPAY_FAIL_URL"),
        network := Field(env, "WOOPAY_NETWORK"),
        currency := ToUpper(Or(Field(env, "WOOPAY_CURRENCY"), defaultCurrency))))
  }

  /** The endpoints of `p` serve requests only when `PAYMENT_PROVIDER` names it. */
  predicate IsActive(c: Config, p: Provider) {
    c.paymentProvider == ProviderName(p)
  }

  /** At most one provider is active, and when `PAYMENT_PROVIDER` is unset
      it is Bank of Georgia. */
  lemma AtMostOneActive(env: Env)
    ensures !(IsActive(LoadConfig(env), Bog) && IsActive(LoadConfig(env), Woopay))
    ensures Field(env, "PAYMENT_PROVIDER") == "" ==> IsActive(LoadConfig(env), Bog)
  {
  }

  /** `PAYMENT_PROVIDER` is matched case-insensitively (ASCII). */
  lemma ProviderCaseInsensitive(env: Env, p: Provider)
    requires Field(env, "PAYMENT_PROVIDER") != ""
    ensures IsActive(LoadConfig(env), p) <==> ToLower(Field(env, "PAYMENT_PROVIDER")) == ProviderName(p)
  {
  }

  function GatewayUrl(c: Config, p: Provider): string {
    match p
    case Bog => c.bog.gatewayUrl
    case Woopay => c.woopay.gatewayUrl
  }

  function MerchantId(c: Config, p: Provider): string {
    match p
    case Bog => c.bog.merchantId
    case Woopay => c.woopay.merchantId
  }

  function SecretKey(c: Config, p: Provider): string {
    match p
    case Bog => c.bog.secretKey
    case Woopay => c.woopay.secretKey
  }

  function Currency(c: Config, p: Provider): string {
    match p
    case Bog => c.bog.currency
    case Woopay => c.woopay.currency
  }

  /** `isBogConfigured()`. */
  predicate IsBogConfigured(c: Config) {
    c.bog.gatewayUrl != "" && c.bog.merchantId != "" && c.bog.terminalId != "" && c.bog.secretKey != ""
  }

  /** `isWoopayConfigured()`: the API key is optional. */
  predicate IsWoopayConfigured(c: Config) {
    c.woopay.gatewayUrl != "" && c.woopay.merchantId != "" && c.woopay.secretKey != ""
  }

  /** A configured provider has a gateway to redirect to, a merchant to
      name and a key to sign with. */
  function IsConfigured(c: Config, p: Provider): (r: bool)
    ensures r ==> GatewayUrl(c, p) != "" && MerchantId(c, p) != "" && SecretKey(c, p) != ""
    ensures r && p == Bog ==> c.bog.terminalId != ""
  {
    match p
    case Bog => IsBogConfigured(c)
    case Woopay => IsWoopayConfigured(c)
  }

  /** The variables the "not configured" error message tells the operator to set. */
  const BogRequiredVars: seq<string> := ["BOG_GATEWAY_URL", "BOG_MERCHANT_ID", "BOG_TERMINAL_ID", "BOG_SECRET_KEY"]
  const WoopayRequiredVars: seq<string> := ["WOOPAY_GATEWAY_URL", "WOOPAY_MERCHANT_ID", "WOOPAY_SECRET_KEY"]

  function RequiredVars(p: Provider): seq<string> {
    match p
    case Bog => BogRequiredVars
    case Woopay => WoopayRequiredVars
  }

  /** A provider loaded from `env` is configured exactly when every variable
      its error message names is set to a non-empty value; in particular
      `WOOPAY_API_KEY` plays no part. */
  lemma ConfiguredIffRequiredVarsSet(env: Env, p: Provider)
    ensures IsConfigured(LoadConfig(env), p)
        <==> forall i :: 0 <= i < |RequiredVars(p)| ==> Field(env, RequiredVars(p)[i]) != ""
  {
    ConfiguredIffSet(LoadConfig(env), env, p);
  }

  /** The same, for any configuration whose settings are read from `env`. */
  lemma ConfiguredIffSet(c: Config, env: Env, p: Provider)
    requires SettingsFromEnv(c, env)
    ensures IsConfigured(c, p) <==> forall i :: 0 <= i < |RequiredVars(p)| ==> Field(env, RequiredVars(p)[i]) != ""
  {
    var vs := RequiredVars(p);
    match p
    case Bog =>
      if forall i :: 0 <= i < |vs| ==> Field(env, vs[i]) != "" {
        assert Field(env, vs[0]) != "" && Field(env, vs[1]) != "" && Field(env, vs[2]) != "" && Field(env, vs[3]) != "";
      }
    case Woopay =>
      if forall i :: 0 <= i < |vs| ==> Field(env, vs[i]) != "" {
        assert Field(env, vs[0]) != "" && Field(env, vs[1]) != "" && Field(env, vs[2]) != "";
      }
  }

  /** The WooPay API key has no effect on whether WooPay is configured. */
  lemma ApiKeyOptional(c: Config, apiKey: string)
    ensures IsConfigured(c.(woopay := c.woopay.(apiKey := apiKey)), Woopay) == IsConfigured(c, Woopay)
  {
  }

  /** The body of `GET /api/payments/provider`. */
  datatype ProviderInfo = ProviderInfo(
    provider: string, currency: string, bogConfigured: bool, woopayConfigured: bool,
    supportedProviders: seq<string>)

  function GetProviderInfo(c: Config): (r: ProviderInfo)
    ensures forall p: Provider :: IsActive(c, p) ==> r.currency == Currency(c, p)
    ensures !IsActive(c, Bog) && !IsActive(c, Woopay) ==> r.currency == c.currency
    ensures r.bogConfigured == IsConfigured(c, Bog) && r.woopayConfigured == IsConfigured(c, Woopay)
    ensures forall p: Provider :: ProviderName(p) in r.supportedProviders
    ensures r.provider == c.paymentProvider
  {
    var currency :=
      if c.paymentProvider == "bog" then c.bog.currency
      else if c.paymentProvider == "woopay" then c.woopay.currency
      else c.currency;
    ProviderInfo(c.paymentProvider, currency, IsBogConfigured(c), IsWoopayConfigured(c), ["bog", "woopay"])
  }
}

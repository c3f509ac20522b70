# Storefront checkout and page logic, modelled in Dafny

This project models the decision logic of a small course storefront:

- the Express server's hosted-checkout integration (server/server.js):
  - the configuration it reads from the environment;
  - the order total;
  - the return-URL fallback;
  - the HMAC signatures of Bank of Georgia and WooPay;
  - the redirect payloads;
  - the four `create-order` and `callback` endpoints;
  - the validation of `POST /api/register`.
- the browser scripts:
  - card-brand detection, the card-number, expiry and CVV formatters, `parsePrice`, and the checks of `handlePayment` (assets/js/card.js);
  - the wishlist upsert and removal and the checkout button (assets/js/basket.js);
  - the registration form check (assets/js/register.js);
  - the FAQ accordion and the navbar toggle (assets/js/support.js).

Everything is a pure function over immutable values. Several things that were implicit become explicit values:

- The environment is a `map<string, string>` read once into a `Config`.
- The clock is a `now: nat` parameter.
- HMAC-SHA256 is a function parameter `hmac: (key, message) -> digest`. Every property holds for whatever function is passed. The tamper-detection lemmas assume two things: that it is collision-free for the key in use, and that the digest of the signed payload is non-empty (a hex SHA-256 digest has 64 characters). The second is needed because the handler treats an empty signature as absent and accepts the callback (server/server.js:261, 337).
- JSON request bodies are `map<string, string>`, where a missing field reads as `""`. This is how `||` and `?? ''` treat it in the source.
- Prices are exact reals.

Module layout, one file each:

- `JsString`: the JavaScript string built-ins the code relies on.
- `Decimal`: `parseFloat`, `toFixed(2)` and `String(n)`.
- `OrderTotal`.
- `PaymentConfig`.
- `Signing`.
- `RedirectPayload`.
- `PaymentEndpoints`.
- `CardInput`.
- `Wishlist`.
- `Checkout`.
- `Registration`.
- `SupportPage`.
- `Optional`: a small option type.

The operations are proved against partners, among them:

- the callback accepts the payload that `create-order` produced, and rejects it once one signed field is altered to another non-empty value (a blanked merchant id, terminal id or currency is read back from the configuration, so it can go unnoticed);
- the card-number formatter is idempotent, and removing its spaces gives back the whitespace-free input cut to the brand's length (letters included, as the source keeps them);
- the expiry formatter is idempotent and keeps the first four digits, with `/` after the month once there are two;
- the CVV formatter keeps exactly the digits, with no length limit;
- the client-side item filter keeps exactly the items `calculateOrderTotal` would count (the page posts them to `/api/payments/create-intent`, which server/server.js does not define);
- the page and the server apply the same registration rules;
- removing an id just added restores the wishlist;
- the checkout button navigates after any addition, and after a removal shows the empty notice exactly when every entry had the removed id.

A callback whose signature does not match is answered with status 400 and `valid: false` (server/server.js:276-279, 349-352).

## Model

| member | source | states |
|---|---|---|
| JsString.Or | server/server.js:21-44 | `a \|\| b` on strings is `a` when `a` is non-empty and `b` otherwise, so it is empty only when both are. |
| JsString.RemoveWhitespace | assets/js/card.js:64 | `replace(/\s/g, '')` leaves no whitespace and leaves a whitespace-free string alone. |
| JsString.DigitsOnly | assets/js/card.js:121 | `replace(/\D/g, '')` leaves only digits and leaves a digit string alone. |
| JsString.KeepCounts | assets/js/card.js:293 | A character-class filter keeps every occurrence of a kept character and no other character. |
| JsString.KeepAppend | assets/js/card.js:293 | A character-class filter distributes over concatenation. |
| JsString.TrimStart | assets/js/register.js:12-14 | `trimStart` removes exactly the longest whitespace prefix. |
| JsString.TrimEnd | assets/js/register.js:12-14 | `trimEnd` removes exactly the longest whitespace suffix. |
| JsString.TrimEmptyIffBlank | assets/js/register.js:12-19 | A field trims to `''` exactly when it is all whitespace. |
| JsString.ToUpper | server/server.js:21-23 | `toUpperCase` leaves no lower-case letter, keeps the length, matches the input letter for letter ignoring case, and changes nothing but lower-case letters. |
| JsString.ToLower | server/server.js:25 | `toLowerCase` leaves no upper-case letter, keeps the length, matches the input letter for letter ignoring case, and changes nothing but upper-case letters. |
| JsString.JoinInjective | server/server.js:136 | Joining equally many `\|`-free parts with `\|` is injective. |
| JsString.JoinOneChange | server/server.js:136 | Changing exactly one of equally many parts changes the joined string, whatever characters the parts contain. |
| Decimal.NatToDecimal | server/server.js:147 | `String(Date.now())` is a non-empty digit string without a leading zero whose value is the number. |
| Decimal.ParseFloat | assets/js/card.js:293-294 | `parseFloat` on digits and dots is NaN exactly when no digit starts the number, and is never negative. |
| Decimal.Cents | server/server.js:154 | The cents `toFixed(2)` rounds to are within half a cent of the amount. |
| Decimal.ToFixed2 | server/server.js:154 | `toFixed(2)` gives digits, a dot and two digits, and never contains `\|`. |
| Decimal.ToFixed2RoundTrip | server/server.js:154 | Reading a `toFixed(2)` amount back gives the rounded amount, within 0.005 of the original. |
| Decimal.ToFixed2Example | server/server.js:154 | A total of 49.99 is sent as `"49.99"`. |
| OrderTotal.SafePrice | server/server.js:102-103 | An item contributes its price when that price is finite and positive, and 0 otherwise. |
| OrderTotal.CalculateOrderTotal | server/server.js:100-106 | The total is never negative, and it is 0 exactly when no item has a finite positive price. |
| OrderTotal.ValidPrices | server/server.js:100-106 | The prices that count are positive and no more numerous than the items. |
| OrderTotal.TotalAppend | server/server.js:100-106 | Appending an item adds its price when it counts, and nothing otherwise. |
| OrderTotal.TotalIsSumOfValidPrices | server/server.js:100-106 | The fold equals the plain sum of the valid prices, an independent reference. |
| OrderTotal.TotalExample | server/server.js:100-106 | Prices NaN, -5 and 10 total 10. |
| PaymentConfig.LoadConfig | server/server.js:21-44 | The provider is lower-cased and defaults to `bog`. Currencies are upper-cased and non-empty. A provider currency is its variable upper-cased, else the default currency, which is `CURRENCY` upper-cased, else `GEL`. Every credential, URL and the WooPay network is the variable of the same name. |
| PaymentConfig.AtMostOneActive | server/server.js:25 | At most one provider is active, and Bank of Georgia is active when `PAYMENT_PROVIDER` is unset. |
| PaymentConfig.ProviderCaseInsensitive | server/server.js:25 | `PAYMENT_PROVIDER` selects a provider regardless of ASCII case. |
| PaymentConfig.IsConfigured | server/server.js:115-121 | A configured provider has a gateway URL, a merchant id and a secret key, and for Bank of Georgia a terminal id. |
| PaymentConfig.ConfiguredIffRequiredVarsSet | server/server.js:115-121 | A provider is configured exactly when every variable named in its "not configured" message is non-empty. |
| PaymentConfig.ApiKeyOptional | server/server.js:119-121 | The WooPay API key plays no part in whether WooPay is configured. |
| PaymentConfig.GetProviderInfo | server/server.js:83-97 | `GET /api/payments/provider` reports the configured provider name, the active provider's currency (the default when neither is active), both configured flags, and both supported providers. |
| Signing.SignatureDependsOnlyOnSignedFields | server/server.js:123-138 | Two payloads that agree on the signed fields have the same signature. |
| Signing.UnsignedFieldsDoNotMatter | server/server.js:167-178 | Description, customer e-mail, network, API key and the signature itself never change the signature. |
| Signing.SigningStringInjective | server/server.js:136 | With `\|`-free values, the signing string determines every signed value. |
| Signing.SignatureDetectsOneChange | server/server.js:123-138 | With a collision-free HMAC, changing exactly one signed field changes the signature, whatever the values contain. |
| Signing.SignatureDetectsChange | server/server.js:123-138 | With a collision-free HMAC and `\|`-free values, changing any signed fields, several at once included, changes the signature. |
| RedirectPayload.ResolveReturnUrl | server/server.js:108-113 | The URL is the fallback if given, else the `Origin` header, else `protocol://host`. |
| RedirectPayload.SignLast | server/server.js:163 | Signing as the last step leaves the attached signature valid for the payload. |
| RedirectPayload.BuildBogRedirectPayload | server/server.js:140-165 | Refused with "Invalid order total." exactly when the total is 0. Otherwise the payload has exactly the Bank of Georgia fields: the `ORD-` id, the amount, currency, merchant and terminal, the description (default "Order payment"), the customer e-mail, the return URLs as configured or derived, and a valid signature. |
| RedirectPayload.BuildWoopayRedirectPayload | server/server.js:180-209 | As for Bank of Georgia, with the `WP-` id and the WooPay fields. The network is the request's, else the configured one. `apiKey` is present exactly when one is configured. |
| RedirectPayload.BuildRedirectPayload | server/server.js:140-209 | For either provider: refused exactly when no item has a finite positive price. Otherwise the documented fields are filled in and the signature matches the payload. |
| RedirectPayload.SignedFieldsOfBuiltPayload | server/server.js:140-209 | For a configured provider, every signed field of a built payload is non-empty. |
| PaymentEndpoints.CreateOrder | server/server.js:212-245 | Wrong provider gives 400, unconfigured gives 500, no valid item gives 400. Otherwise the response is 200 with the configured gateway, `POST` and the built payload. "Gateway URL is missing." is never returned. |
| PaymentEndpoints.FirstOf | server/server.js:258 | `a \|\| b \|\| ...` over body fields is empty exactly when all are, and is otherwise the first non-empty one. |
| PaymentEndpoints.Callback | server/server.js:248-284 | Inactive gives 404 with no body, unconfigured gives 500. Otherwise an acknowledgement, valid exactly when no signature is given or it equals the recomputed one, with status 200 when valid and 400 when not. |
| PaymentEndpoints.UnsignedCallbackAccepted | server/server.js:258-274 | A callback without a signature under any accepted name is accepted. |
| PaymentEndpoints.CallbackFieldsEcho | server/server.js:262-271 | When a body carries each signed field under its camel-case name, the handler re-signs the body's own values. |
| PaymentEndpoints.CallbackAcceptsCheckable | server/server.js:248-284 | The callback accepts a payload whose signed fields are present and whose signature is valid. |
| PaymentEndpoints.CallbackRejectsTampered | server/server.js:248-284 | Altering one signed field of such a payload to another non-empty value gets it rejected with 400, whatever characters the values contain. |
| PaymentEndpoints.BuiltPayloadCheckable | server/server.js:140-209 | A built payload of a configured provider is one the callback can check. |
| PaymentEndpoints.AliasesNotBuilt | server/server.js:258 | The builders never write a signature under an alternative field name. |
| PaymentEndpoints.OrderPayloadCheckable | server/server.js:212-245 | A successful create-order means the provider is active and configured, and its payload is checkable. |
| PaymentEndpoints.CallbackAcceptsOwnPayload | server/server.js:212-357 | Round trip: the callback accepts, unchanged, the payload a successful create-order returned. |
| PaymentEndpoints.CallbackRejectsTamperedOrder | server/server.js:212-284 | A create-order payload with one signed field altered to another non-empty value is rejected with 400, also when its URLs contain `\|`. |
| CardInput.DetectCardType | assets/js/card.js:62-74 | Visa exactly for a leading 4 and Mastercard exactly for a leading 5, after removing whitespace. American Express exactly for a leading 34 or 37. |
| CardInput.DetectAfterTruncation | assets/js/card.js:98-101 | Cutting the number to the maximum length keeps its brand. |
| CardInput.CardDigits | assets/js/card.js:95-101 | The kept characters are whitespace-free and at most 15 (Amex) or 16 long. |
| CardInput.FormatCardNumber | assets/js/card.js:94-110 | Without spaces the result is the kept characters. It is laid out in groups of 4 (or 4-6-5 for Amex) and keeps the brand. |
| CardInput.FormatCardNumberIdempotent | assets/js/card.js:94-110 | Formatting a formatted number changes nothing. |
| CardInput.Group4Shape | assets/js/card.js:107 | In the grouped layout position `i` is a space exactly when `i % 5 == 4`, and the other positions hold the characters in order. |
| CardInput.Group4Spaces | assets/js/card.js:107 | The grouped layout has a space exactly at every fifth position, and none at either end. |
| CardInput.SpaceAfterEachFourTrimmed | assets/js/card.js:107 | `replace(/(.{4})/g, '$1 ').trim()` equals the grouped layout. |
| CardInput.SpaceAfterEachFourIsGroup4 | assets/js/card.js:107 | The replacement adds one trailing space exactly when the last group is full. |
| CardInput.AmexReplaceTrimmed | assets/js/card.js:105 | `replace(/(.{4})(.{6})(.{0,5})/, '$1 $2 $3').trim()` equals the 4-6-rest layout. |
| CardInput.Group4KeepsCharacters | assets/js/card.js:107 | Removing the spaces from the grouped layout gives back the characters. |
| CardInput.AmexLayoutKeepsCharacters | assets/js/card.js:105 | Removing the spaces from the Amex layout gives back the characters. |
| CardInput.FormatExpiry | assets/js/card.js:120-126 | Fewer than two digits are kept as they are. Otherwise `MM/` is followed by at most two digits, and the first four digits are kept in order. |
| CardInput.FormatExpiryIdempotent | assets/js/card.js:120-126 | Formatting a formatted expiry changes nothing. |
| CardInput.FormatCvv | assets/js/card.js:132-134 | The CVV holds only digits, and every digit of the input with its multiplicity. |
| CardInput.FormatCvvIsDigitFilter | assets/js/card.js:132-134 | The CVV filter works character by character and is idempotent. |
| Wishlist.FindIndex | assets/js/basket.js:24 | `findIndex` returns -1 exactly when no entry has the id, and otherwise the first position that does. |
| Wishlist.AddToWishlist | assets/js/basket.js:22-35 | A new id is appended. Otherwise the first matching entry is merged with the item's fields and nothing else changes. |
| Wishlist.RemoveFromWishlist | assets/js/basket.js:37-42 | No entry with the id remains, and the list does not grow. |
| Wishlist.AddKeepsIdsUnique | assets/js/basket.js:22-35 | Adding keeps ids unique. |
| Wishlist.RemoveKeepsOthersInOrder | assets/js/basket.js:37-42 | Removing keeps every other entry, with its multiplicity, in its original order. |
| Wishlist.RemoveAbsent | assets/js/basket.js:37-42 | Removing an id nobody has changes nothing. |
| Wishlist.AddThenRemove | assets/js/basket.js:22-42 | Adding an entry with a new id and removing that id restores the wishlist. |
| Wishlist.CheckoutClick | assets/js/basket.js:104-111 | The checkout button navigates exactly when the wishlist is non-empty. |
| Wishlist.RemoveEmptyIff | assets/js/basket.js:37-42 | Removing an id empties the wishlist exactly when every entry has that id. |
| Wishlist.CheckoutAfterEdits | assets/js/basket.js:22-111 | The checkout button navigates after any addition. After a removal it shows the empty notice exactly when every entry had the removed id. |
| Checkout.ParsePrice | assets/js/card.js:292-295 | `parsePrice` is `parseFloat` of the digits and dots, never negative, and 0 when that is NaN. |
| Checkout.ParsePriceReadsPriceChars | assets/js/card.js:293 | Only the digits and dots of a price matter. |
| Checkout.ParsePriceOfDisplayed | assets/js/card.js:292-295 | `"$" + x.toFixed(2)` parses back to the displayed amount. |
| Checkout.ParsePriceWithoutDigits | assets/js/card.js:292-295 | A price without any digit reads as 0. |
| Checkout.EmailMatchesIff | assets/js/card.js:157-158 | The e-mail scan accepts exactly the language of `^[^\s@]+@[^\s@]+\.[^\s@]+$`. |
| Checkout.PaymentItems | assets/js/card.js:169-171 | The items sent have only positive prices, and there are no more of them than wishlist entries. |
| Checkout.PaymentItemsAreValidPrices | assets/js/card.js:169-171 | The client keeps exactly the prices the server's total would count, in order. |
| Checkout.ServerTotalOfSentItems | assets/js/card.js:169-177 | The server's total of the sent items equals the client's sum and the server's total of the whole wishlist, and is positive exactly when something is sent. |
| Checkout.CheckPayment | assets/js/card.js:148-179 | In order: a name shorter than 2 after trimming, an e-mail outside the pattern, an unready form, then nothing to pay. Otherwise it proceeds with the filtered items, whose server total is positive. |
| Registration.ValidateRegistration | assets/js/register.js:9-32 | In order: a blank field, then mismatching passwords, then a password under 6 characters. Otherwise the trimmed fields are sent. |
| Registration.ServerValidate | server/server.js:380-395 | In order, on the untrimmed body: an empty field gives 400 "All fields are required", then mismatching passwords give 400 "Passwords do not match", then a password under 6 characters gives 400 "Password must be at least 6 characters". Otherwise the body is accepted. |
| Registration.ClientMirrorsServer | server/server.js:380-395 | On the trimmed form the server rejects what the page rejects, with the corresponding message, and accepts what the page sends. |
| Registration.SubmittedFormsAccepted | assets/js/register.js:39-50 | Every body the page sends passes the server's validation. |
| SupportPage.ClickQuestion | assets/js/support.js:23-32 | Clicking a closed item makes it the only open one with `aria-expanded="true"`. Clicking an open item closes all and sets "false". Other questions' attributes are untouched. |
| SupportPage.ClicksKeepAtMostOneActive | assets/js/support.js:20-33 | After any non-empty run of clicks at most one item is open. |
| SupportPage.StaleAriaExpanded | assets/js/support.js:23-32 | Opening one question and then another leaves the first closed but still `aria-expanded="true"`. |
| SupportPage.ClickQuestionSynced | assets/js/support.js:23-32 | The corrected handler opens and closes the same items, and leaves `aria-expanded` true exactly on the open item. |
| SupportPage.SyncedClicksStayInSync | assets/js/support.js:20-33 | With the corrected handler, every run of clicks keeps `aria-expanded` in step and at most one item open. |
| SupportPage.NavStep | assets/js/support.js:6-16 | A toggle click flips the button and the menu, and a menu-link click closes both. |
| SupportPage.NavFlagsStayEqual | assets/js/support.js:6-16 | A button and menu that start in step stay in step. |
| SupportPage.NavOpenAfterLinkClick | assets/js/support.js:11-16 | After a menu-link click, both are closed whatever happened before. |

## Left out

- OrderTotal.CalculateOrderTotal: prices are exact reals. The IEEE-754 rounding of the JavaScript sum is not modelled, and neither is how `Number()` coerces a JSON value; an item carries the already-coerced number (`Finite` or `NotFinite`).
- Decimal.ToFixed2: amounts of 10^21 and more, which `toFixed` writes in exponent notation, are not modelled. Rounding is done on the exact value, not on the binary double.
- Decimal.ParseFloat: it is defined only for strings of digits and dots, which is all `parsePrice` passes it. Signs, exponents and `Infinity` are not modelled.
- JsString.ToUpper: case mapping is ASCII only. The non-ASCII mappings of `toUpperCase` are not modelled.
- JsString.ToLower: case mapping is ASCII only. The non-ASCII mappings of `toLowerCase` are not modelled.
- Checkout.CheckPayment: the trimmed name's length is counted in Unicode scalar values rather than UTF-16 code units. A one-character name outside the Basic Multilingual Plane is rejected by the model but has length 2 in JavaScript.
- Registration.ServerValidate: body fields are strings. In the source a JSON number or other non-string value passes the `!==` and `.length < 6` checks (server/server.js:388-392): two equal numeric passwords are accepted whatever their length. Lengths are also counted in Unicode scalar values, not UTF-16 code units.
- Registration.ValidateRegistration: length is counted in Unicode scalar values rather than UTF-16 code units. A password with characters outside the Basic Multilingual Plane is counted shorter than JavaScript counts it.
- CardInput.FormatCardNumber: the regular expression's `.` works on UTF-16 code units. Characters outside the Basic Multilingual Plane are counted as one.
- PaymentEndpoints.Callback: body values are strings. A non-string JSON value (`.toString()` on a number or object) is not modelled.
- PaymentEndpoints.CreateOrder: the `catch` branch (500, "Failed to prepare ... checkout.") is not modelled. In the source it is reached when `items` is not an array (`null` or a number makes `items.reduce` throw, server/server.js:100-106); the model's `items` is a typed sequence, which excludes this.
- HMAC-SHA256 is a function parameter. Only the tamper-detection lemmas assume anything about it: that it is collision-free, and that the signed payload's digest is non-empty.
- Order ids come from the clock parameter. Two orders in the same millisecond share an id, and uniqueness is not claimed.
- Wishlist.AddToWishlist / Wishlist.RemoveFromWishlist: ids are strings or absent. The source compares ids with `===`, and ids of mixed JSON types (a number against the string from `dataset.id`) never match; that is not modelled.
- The remaining work of `handlePayment` is not modelled: the `fetch` to `/api/payments/create-intent` and the card confirmation with the Stripe SDK. That endpoint is not defined in server/server.js, and the SDK is outside the repository.
- DOM rendering and notifications are not modelled: `displayWishlist`, its display total, card icons, and the timers.
- localStorage persistence is not modelled.
- The support-page contact form is not modelled; it only shows a message.
- The navbar and FAQ handlers are attached only when their elements exist. The model assumes they do.
- Express plumbing is not modelled: static files, sessions, `GET /api/health`, and the page routes.
- The login, session and logout endpoints are not modelled.
- Only the validation part of `POST /api/register` is modelled. The user lookup, bcrypt hashing and storage are not.
- server/database.js is not part of this model.
- Console logging is not modelled.

## Findings

| source | as written | input that shows it | evidently intended | confidence | as-written member | corrected member |
|---|---|---|---|---|---|---|
| assets/js/support.js:23-32 | A question click removes `active` from every item but updates `aria-expanded` only on the clicked question. | Two items: click the first question, then the second. The first item is closed, but its question still says `aria-expanded="true"`. | Every question's `aria-expanded` reflects whether its item is open: the others are set to `"false"` when they close. | not executed; medium | SupportPage.StaleAriaExpanded | SupportPage.ClickQuestionSynced |

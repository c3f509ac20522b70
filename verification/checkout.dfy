/** The checks the checkout page (assets/js/card.js) runs before it asks
    for a payment: `parsePrice`, the payer name and e-mail rules, and the
    price-only item list sent to the server. */
module Checkout {
  import opened JsString
  import opened Decimal
  import opened OrderTotal
  import opened Wishlist

  /** The characters `/[^0-9.]/g` leaves in place. */
  predicate PriceChar(c: char) {
    IsDigit(c) || c == '.'
  }

  /** `parsePrice`: every character but digits and `.` is dropped, and the
      rest is read with `parseFloat`; NaN becomes 0. */
  function ParsePrice(priceString: string): (p: real)
    ensures p >= 0.0
    ensures ParseFloat(Keep(priceString, PriceChar)).None? ==> p == 0.0
    ensures ParseFloat(Keep(priceString, PriceChar)).Some? ==> p == ParseFloat(Keep(priceString, PriceChar)).value
  {
    ParseFloat(Keep(priceString, PriceChar)).GetOr(0.0)
  }

  /** Only the digits and dots of a price matter, in their order. */
  lemma ParsePriceReadsPriceChars(priceString: string)
    ensures ParsePrice(Keep(priceString, PriceChar)) == ParsePrice(priceString)
  {
    KeepAll(Keep(priceString, PriceChar), PriceChar);
  }

  /** Prices are displayed as `$` followed by `toFixed(2)`; `parsePrice`
      reads such a price back as the amount it displays. */
  lemma ParsePriceOfDisplayed(x: real)
    requires x >= 0.0
    ensures ParsePrice("$" + ToFixed2(x)) == Cents(x) as real / 100.0
  {
    DisplayedPriceChars(x);
    ToFixed2RoundTrip(x);
  }

  /** Of a displayed price only the `$` is dropped. */
  lemma DisplayedPriceChars(x: real)
    requires x >= 0.0
    ensures Keep("$" + ToFixed2(x), PriceChar) == ToFixed2(x)
  {
    var f := ToFixed2(x);
    KeepAppend("$", f, PriceChar);
    assert Keep("$", PriceChar) == "";
    FixedPointPriceChars(f);
    KeepAll(f, PriceChar);
  }

  /** Digits, a dot and two digits are all price characters. */
  lemma FixedPointPriceChars(f: string)
    requires |f| >= 4 && f[|f| - 3] == '.'
    requires AllDigits(f[..|f| - 3]) && AllDigits(f[|f| - 2..])
    ensures forall i :: 0 <= i < |f| ==> PriceChar(f[i])
  {
    forall i | 0 <= i < |f| ensures PriceChar(f[i]) {
      if i < |f| - 3 {
        assert f[..|f| - 3][i] == f[i];
      } else if i > |f| - 3 {
        assert f[|f| - 2..][i - (|f| - 2)] == f[i];
      }
    }
  }

  /** A price with no digit at all reads as 0. */
  lemma ParsePriceWithoutDigits(priceString: string)
    requires forall i :: 0 <= i < |priceString| ==> !IsDigit(priceString[i])
    ensures ParsePrice(priceString) == 0.0
  {
    var cleaned := Keep(priceString, PriceChar);
    KeepCounts(priceString, PriceChar);
    forall i | 0 <= i < |cleaned| ensures !IsDigit(cleaned[i]) {
      assert cleaned[i] in multiset(cleaned);
      assert multiset(priceString)[cleaned[i]] > 0;
    }
  }

  /** One part of an address matched by `[^\s@]+`. */
  predicate Segment(x: string) {
    |x| > 0 && forall i :: 0 <= i < |x| ==> !IsWhitespace(x[i]) && x[i] != '@'
  }

  /** The language of `^[^\s@]+@[^\s@]+\.[^\s@]+$`. */
  ghost predicate EmailLanguage(s: string) {
    exists a, b, c :: s == a + "@" + b + "." + c && Segment(a) && Segment(b) && Segment(c)
  }

  /** The e-mail test as a scan: no whitespace, exactly one `@` with
      something before it, and a `.` strictly inside what follows it. */
  function EmailMatches(s: string): bool {
    NoWhitespace(s) && DomainAfter(s, IndexOf(s, '@'))
  }

  /** What follows position `at`, where the first `@` was found. */
  predicate DomainAfter(s: string, at: nat) {
    0 < at < |s| && Domain(s[at + 1..])
  }

  /** The text after the `@`: no further `@`, and a `.` with at least one
      character on either side. */
  predicate Domain(rest: string) {
    '@' !in rest && |rest| >= 3 && '.' in rest[1..|rest| - 1]
  }

  /** The scan accepts exactly the strings of the regular expression. */
  lemma EmailMatchesIff(s: string)
    ensures EmailMatches(s) <==> EmailLanguage(s)
  {
    if EmailMatches(s) {
      EmailMatchesSound(s);
    }
    if EmailLanguage(s) {
      var a, b, c :| s == a + "@" + b + "." + c && Segment(a) && Segment(b) && Segment(c);
      EmailMatchesComplete(a, b, c);
    }
  }

  /** Every string the scan accepts splits into the three segments. */
  lemma EmailMatchesSound(s: string)
    requires EmailMatches(s)
    ensures EmailLanguage(s)
  {
    var at, d := EmailSeparators(s);
    SliceSegment(s, 0, at);
    SliceSegment(s, at + 1, d);
    SliceSegment(s, d + 1, |s|);
    assert s[d + 1..|s|] == s[d + 1..];
    assert s[0..at] == s[..at];
    SplitAround(s, at, d);
    InLanguage(s, s[..at], s[at + 1..d], s[d + 1..]);
  }

  /** Three segments joined by `@` and `.` spell a string of the language. */
  lemma InLanguage(s: string, a: string, b: string, c: string)
    requires s == a + "@" + b + "." + c && Segment(a) && Segment(b) && Segment(c)
    ensures EmailLanguage(s)
  {
  }

  /** Where the scan finds the `@` and a `.` after it. */
  lemma EmailSeparators(s: string) returns (at: nat, d: nat)
    requires EmailMatches(s)
    ensures 0 < at && at + 1 < d && d + 1 < |s|
    ensures s[at] == '@' && s[d] == '.' && NoWhitespace(s)
    ensures forall i :: 0 <= i < |s| && i != at ==> s[i] != '@'
  {
    at := IndexOf(s, '@');
    var rest := s[at + 1..];
    var mid := rest[1..|rest| - 1];
    var j := 1 + IndexOf(mid, '.');
    assert rest[j] == '.';
    d := at + 1 + j;
    forall i | at < i < |s| ensures s[i] != '@' {
      assert s[i] == rest[i - (at + 1)];
    }
  }

  /** A string cut at two separator positions. */
  lemma SplitAround(s: string, at: nat, d: nat)
    requires at < d < |s| && s[at] == '@' && s[d] == '.'
    ensures s == s[..at] + "@" + s[at + 1..d] + "." + s[d + 1..]
  {
    assert s == s[..at] + [s[at]] + s[at + 1..d] + [s[d]] + s[d + 1..];
  }

  /** A non-empty slice of a whitespace-free string without `@` is a segment. */
  lemma SliceSegment(s: string, lo: nat, hi: nat)
    requires lo < hi <= |s| && NoWhitespace(s)
    requires forall i :: lo <= i < hi ==> s[i] != '@'
    ensures Segment(s[lo..hi])
  {
  }

  /** The scan accepts every string of three segments joined by `@` and `.`. */
  lemma EmailMatchesComplete(a: string, b: string, c: string)
    requires Segment(a) && Segment(b) && Segment(c)
    ensures EmailMatches(a + "@" + b + "." + c)
  {
    var rest := b + "." + c;
    var s := a + "@" + rest;
    assert s == a + "@" + b + "." + c;
    DomainFacts(b, c);
    LocalPartFacts(a, rest);
    MatchesFromParts(s, |a|, rest);
  }

  /** What follows the `@` in three joined segments: no `@`, and a `.`
      with something on both sides of it. */
  lemma DomainFacts(b: string, c: string)
    requires Segment(b) && Segment(c)
    ensures NoWhitespace(b + "." + c) && Domain(b + "." + c)
  {
    var rest := b + "." + c;
    JoinedSegments(b, c);
    assert rest[1..|rest| - 1][|b| - 1] == '.';
  }

  /** A segment followed by `@`: the first `@` is right after the segment. */
  lemma LocalPartFacts(a: string, rest: string)
    requires Segment(a) && NoWhitespace(rest)
    ensures var s := a + "@" + rest;
      && NoWhitespace(s) && IndexOf(s, '@') == |a| && s[|a| + 1..] == rest
  {
    JoinedSegments(a, rest);
    IndexOfAfter(a, '@', rest);
    assert (a + "@" + rest)[|a| + 1..] == rest;
  }

  /** The scan's conditions, met piece by piece. */
  lemma MatchesFromParts(s: string, at: nat, rest: string)
    requires NoWhitespace(s) && IndexOf(s, '@') == at && 0 < at < |s| && s[at + 1..] == rest
    requires Domain(rest)
    ensures EmailMatches(s)
  {
  }

  /** Two strings free of whitespace and `@` joined by one separator that
      is neither are again free of both, apart from the separator. */
  lemma JoinedSegments(x: string, y: string)
    requires Segment(x) && NoWhitespace(y)
    ensures NoWhitespace(x + "@" + y) && NoWhitespace(x + "." + y)
    ensures (forall i :: 0 <= i < |y| ==> y[i] != '@') ==> '@' !in x + "." + y
  {
  }

  /** The prices sent to the server: the parsed price of every wishlist
      entry whose parsed price is positive, in wishlist order. */
  function PaymentItems(w: seq<Entry>): (ps: seq<real>)
    ensures forall i :: 0 <= i < |ps| ==> ps[i] > 0.0
    ensures |ps| <= |w|
  {
    if |w| == 0 then []
    else
      var p := ParsePrice(Field(w[0], "price"));
      if p > 0.0 then [p] + PaymentItems(w[1..]) else PaymentItems(w[1..])
  }

  /** The wishlist as line items, each carrying its parsed price. */
  function AsLineItems(w: seq<Entry>): (items: seq<LineItem>)
    ensures |items| == |w|
    ensures forall i :: 0 <= i < |w| ==> items[i] == LineItem(Finite(ParsePrice(Field(w[i], "price"))))
  {
    seq(|w|, i requires 0 <= i < |w| => LineItem(Finite(ParsePrice(Field(w[i], "price")))))
  }

  /** The client's filter keeps exactly the entries the server's total
      would count, with the same prices. */
  lemma {:induction false} PaymentItemsAreValidPrices(w: seq<Entry>)
    ensures PaymentItems(w) == ValidPrices(AsLineItems(w))
    decreases |w|
  {
    if |w| > 0 {
      assert AsLineItems(w)[1..] == AsLineItems(w[1..]);
      PaymentItemsAreValidPrices(w[1..]);
    }
  }

  /** The items as the server receives them, `{ price }` each. */
  function Sent(ps: seq<real>): (items: seq<LineItem>)
    ensures |items| == |ps|
    ensures forall i :: 0 <= i < |ps| ==> items[i] == LineItem(Finite(ps[i]))
  {
    seq(|ps|, i requires 0 <= i < |ps| => LineItem(Finite(ps[i])))
  }

  lemma {:induction false} ValidPricesOfPositive(ps: seq<real>)
    requires forall i :: 0 <= i < |ps| ==> ps[i] > 0.0
    ensures ValidPrices(Sent(ps)) == ps
    decreases |ps|
  {
    if |ps| > 0 {
      assert Sent(ps)[1..] == Sent(ps[1..]);
      ValidPricesOfPositive(ps[1..]);
      assert ps == [ps[0]] + ps[1..];
    }
  }

  /** The server's order total of the items the client sends equals the
      client's own total and the server's total of the whole wishlist, and
      it is positive exactly when the list sent is non-empty. */
  lemma ServerTotalOfSentItems(w: seq<Entry>)
    ensures CalculateOrderTotal(Sent(PaymentItems(w))) == Sum(PaymentItems(w))
    ensures CalculateOrderTotal(Sent(PaymentItems(w))) == CalculateOrderTotal(AsLineItems(w))
    ensures CalculateOrderTotal(Sent(PaymentItems(w))) > 0.0 <==> |PaymentItems(w)| > 0
  {
    var ps := PaymentItems(w);
    TotalIsSumOfValidPrices(Sent(ps));
    ValidPricesOfPositive(ps);
    TotalIsSumOfValidPrices(AsLineItems(w));
    PaymentItemsAreValidPrices(w);
    if |ps| > 0 {
      assert Counts(Sent(ps)[0]);
    }
  }

  /** The outcome of the checks `handlePayment` runs before contacting the
      server. */
  datatype PaymentCheck =
    | NameRejected
    | EmailRejected
    | FormNotReady
    | BasketInvalid
    | Proceed(items: seq<real>)

  /** The validation part of `handlePayment`. `formReady` is whether the
      card form finished loading. The name check comes first, then the
      e-mail, then the form, then the basket. */
  function CheckPayment(name: string, email: string, formReady: bool, w: seq<Entry>): (r: PaymentCheck)
    ensures r == NameRejected <==> |Trim(name)| < 2
    ensures r == EmailRejected <==> |Trim(name)| >= 2 && !EmailLanguage(email)
    ensures r == FormNotReady <==> |Trim(name)| >= 2 && EmailLanguage(email) && !formReady
    ensures r == BasketInvalid <==> |Trim(name)| >= 2 && EmailLanguage(email) && formReady && PaymentItems(w) == []
    ensures r.Proceed? ==> r.items == PaymentItems(w) && r.items != [] && CalculateOrderTotal(Sent(r.items)) > 0.0
  {
    EmailMatchesIff(email);
    ServerTotalOfSentItems(w);
    if |Trim(name)| < 2 then NameRejected
    else if !EmailMatches(email) then EmailRejected
    else if !formReady then FormNotReady
    else
      var items := PaymentItems(w);
      var total := Sum(items);
      if |items| == 0 || total <= 0.0 then BasketInvalid
      else Proceed(items)
  }
}

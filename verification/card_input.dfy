/** The input rules of the checkout page (assets/js/card.js): card-brand
    detection and the formatters the card-number, expiry and CVV fields
    apply to their value on every `input` event. */
module CardInput {
  import opened JsString

  /** `detectCardType`'s result; `NoCardType` is its `null`. */
  datatype CardType = Visa | Mastercard | AmericanExpress | NoCardType

  predicate StartsWith(s: string, prefix: string) {
    |prefix| <= |s| && s[..|prefix|] == prefix
  }

  /** `detectCardType`: the brand is read off the first one or two
      non-whitespace characters. */
  function DetectCardType(number: string): (t: CardType)
    ensures t == Visa <==> StartsWith(RemoveWhitespace(number), "4")
    ensures t == Mastercard <==> StartsWith(RemoveWhitespace(number), "5")
    ensures t == AmericanExpress <==>
      StartsWith(RemoveWhitespace(number), "34") || StartsWith(RemoveWhitespace(number), "37")
  {
    var cleaned := RemoveWhitespace(number);
    if StartsWith(cleaned, "4") then Visa
    else if StartsWith(cleaned, "5") then Mastercard
    else if StartsWith(cleaned, "34") || StartsWith(cleaned, "37") then AmericanExpress
    else NoCardType
  }

  /** Cutting a whitespace-free number to two or more characters keeps its
      brand. */
  lemma DetectAfterTruncation(v: string, n: nat)
    requires NoWhitespace(v) && n <= |v| && (2 <= n || n == |v|)
    ensures DetectCardType(v[..n]) == DetectCardType(v)
  {
    if n < |v| {
      assert v[..n][..1] == v[..1] && v[..n][..2] == v[..2];
    } else {
      assert v[..n] == v;
    }
  }

  /** The number of characters the card-number field keeps. */
  function MaxLength(t: CardType): nat {
    if t == AmericanExpress then 15 else 16
  }

  function Min(a: nat, b: nat): nat {
    if a <= b then a else b
  }

  /** What the card-number field keeps of its input: the non-whitespace
      characters, cut to the brand's maximum length. */
  function CardDigits(input: string): (w: string)
    ensures NoWhitespace(w) && |w| <= MaxLength(DetectCardType(input))
  {
    var v := RemoveWhitespace(input);
    v[..Min(|v|, MaxLength(DetectCardType(input)))]
  }

  /** `value.replace(/(.{4})/g, '$1 ')` on a whitespace-free value, where
      `.` matches every character: a space after each full group of four. */
  function SpaceAfterEachFour(v: string): string
    decreases |v|
  {
    if |v| < 4 then v else v[..4] + " " + SpaceAfterEachFour(v[4..])
  }

  /** `value.replace(/(.{4})(.{6})(.{0,5})/, '$1 $2 $3')` on a
      whitespace-free value: it matches only when there are ten characters. */
  function AmexReplace(v: string): string {
    if |v| < 10 then v else v[..4] + " " + v[4..10] + " " + v[10..]
  }

  /** The consecutive groups of four characters of `w`, the last one
      possibly shorter. */
  function Chunks4(w: string): (cs: seq<string>)
    ensures |w| == 0 <==> |cs| == 0
    decreases |w|
  {
    if |w| == 0 then []
    else if |w| <= 4 then [w]
    else [w[..4]] + Chunks4(w[4..])
  }

  /** The reference layout of a non-Amex number: groups of four separated
      by single spaces. */
  function Group4(w: string): string {
    Join(Chunks4(w), ' ')
  }

  /** The reference layout of an Amex number: groups of four, six and the
      rest, separated by single spaces, once there are ten characters. */
  function AmexLayout(w: string): string {
    if |w| < 10 then w
    else Join([w[..4], w[4..10]] + (if |w| > 10 then [w[10..]] else []), ' ')
  }

  /** The input handler of the card-number field. */
  function FormatCardNumber(input: string): (r: string)
    ensures RemoveWhitespace(r) == CardDigits(input)
    ensures DetectCardType(input) != AmericanExpress ==> r == Group4(CardDigits(input))
    ensures DetectCardType(input) == AmericanExpress ==> r == AmexLayout(CardDigits(input))
    ensures DetectCardType(r) == DetectCardType(input)
  {
    var value := RemoveWhitespace(input);
    var cardType := DetectCardType(value);
    var maxLength := if cardType == AmericanExpress then 15 else 16;
    var value' := if |value| > maxLength then value[..maxLength] else value;
    assert value' == CardDigits(input);
    SpaceAfterEachFourTrimmed(value');
    AmexReplaceTrimmed(value');
    Group4KeepsCharacters(value');
    AmexLayoutKeepsCharacters(value');
    DetectAfterTruncation(value, |value'|);
    if cardType == AmericanExpress then Trim(AmexReplace(value')) else Trim(SpaceAfterEachFour(value'))
  }

  /** Re-running the handler on its own output changes nothing. */
  lemma FormatCardNumberIdempotent(input: string)
    ensures FormatCardNumber(FormatCardNumber(input)) == FormatCardNumber(input)
  {
    CardDigitsOfFormatted(input);
  }

  /** The formatted value keeps the same characters after a second pass. */
  lemma CardDigitsOfFormatted(input: string)
    ensures CardDigits(FormatCardNumber(input)) == CardDigits(input)
  {
    CardDigitsOf(FormatCardNumber(input), CardDigits(input));
  }

  /** A value whose characters fit the brand's length is kept whole. */
  lemma CardDigitsOf(x: string, w: string)
    requires RemoveWhitespace(x) == w && |w| <= MaxLength(DetectCardType(x))
    ensures CardDigits(x) == w
  {
  }

  /** Position `i` of the grouped layout is a space exactly when `i % 5 == 4`;
      every other position holds the next character of `w`. */
  lemma {:induction false} Group4Shape(w: string)
    ensures |w| == 0 ==> Group4(w) == ""
    ensures |w| > 0 ==> |Group4(w)| == |w| + (|w| - 1) / 4
    ensures forall i :: 0 <= i < |Group4(w)| && i % 5 == 4 ==> Group4(w)[i] == ' '
    ensures forall i :: 0 <= i < |Group4(w)| && i % 5 != 4 ==> i - i / 5 < |w| && Group4(w)[i] == w[i - i / 5]
    decreases |w|
  {
    if |w| > 4 {
      assert Chunks4(w)[1..] == Chunks4(w[4..]);
      assert Group4(w) == w[..4] + " " + Group4(w[4..]);
      Group4Shape(w[4..]);
      ShapeCons(w, Group4(w[4..]));
    }
  }

  /** The inductive step of `Group4Shape`: one more group of four in front
      shifts every position by five. */
  lemma ShapeCons(w: string, g': string)
    requires |w| > 4 && |g'| == (|w| - 4) + (|w| - 5) / 4
    requires forall i :: 0 <= i < |g'| && i % 5 == 4 ==> g'[i] == ' '
    requires forall i :: 0 <= i < |g'| && i % 5 != 4 ==> i - i / 5 < |w| - 4 && g'[i] == w[4 + (i - i / 5)]
    ensures var g := w[..4] + " " + g';
      && |g| == |w| + (|w| - 1) / 4
      && (forall i :: 0 <= i < |g| && i % 5 == 4 ==> g[i] == ' ')
      && (forall i :: 0 <= i < |g| && i % 5 != 4 ==> i - i / 5 < |w| && g[i] == w[i - i / 5])
  {
    var g := w[..4] + " " + g';
    forall i | 0 <= i < |g| && i % 5 != 4 ensures i - i / 5 < |w| && g[i] == w[i - i / 5] {
      if i >= 5 {
        assert (i - 5) % 5 == i % 5 && (i - 5) / 5 == i / 5 - 1;
        assert g[i] == g'[i - 5];
      }
    }
    forall i | 0 <= i < |g| && i % 5 == 4 ensures g[i] == ' ' {
      if i >= 5 {
        assert (i - 5) % 5 == i % 5;
        assert g[i] == g'[i - 5];
      }
    }
  }

  /** The non-Amex layout of a whitespace-free number has a space exactly at
      the positions `i` with `i % 5 == 4`, and it neither starts nor ends with
      one. */
  lemma Group4Spaces(w: string)
    requires NoWhitespace(w)
    ensures forall i :: 0 <= i < |Group4(w)| ==> (Group4(w)[i] == ' ' <==> i % 5 == 4)
    ensures Group4(w) == "" || (!IsWhitespace(Group4(w)[0]) && !IsWhitespace(Group4(w)[|Group4(w)| - 1]))
  {
    Group4Shape(w);
    var g := Group4(w);
    forall i | 0 <= i < |g| ensures g[i] == ' ' <==> i % 5 == 4 {
      if i % 5 != 4 {
        assert g[i] == w[i - i / 5];
        assert !IsWhitespace(w[i - i / 5]);
      }
    }
    if |w| > 0 {
      LastGroupedPosition(|w| - 1);
      assert g[|g| - 1] == w[|w| - 1];
      assert g[0] == w[0];
    }
  }

  /** The last character of `n + 1` characters laid out in groups of four
      sits at position `n + n / 4`, which is not a space position. */
  lemma LastGroupedPosition(n: nat)
    ensures (n + n / 4) % 5 != 4 && (n + n / 4) - (n + n / 4) / 5 == n
  {
    var q, r := n / 4, n % 4;
    assert n == 4 * q + r;
    assert n + n / 4 == 5 * q + r;
  }

  /** Trimming the regular-expression form gives the reference layout:
      the only extra space is a trailing one, after a full last group. */
  lemma {:induction false} SpaceAfterEachFourTrimmed(w: string)
    requires NoWhitespace(w)
    ensures Trim(SpaceAfterEachFour(w)) == Group4(w)
  {
    SpaceAfterEachFourIsGroup4(w);
    Group4Spaces(w);
    if |w| > 0 && |w| % 4 == 0 {
      TrimTrailingSpace(Group4(w));
    } else {
      assert SpaceAfterEachFour(w) == Group4(w);
      TrimUntouched(Group4(w));
    }
  }

  lemma {:induction false} SpaceAfterEachFourIsGroup4(w: string)
    ensures SpaceAfterEachFour(w) == Group4(w) + (if |w| > 0 && |w| % 4 == 0 then " " else "")
    decreases |w|
  {
    if |w| == 4 {
      assert SpaceAfterEachFour(w[4..]) == "";
      assert w[..4] == w;
    } else if |w| > 4 {
      var rest := w[4..];
      SpaceAfterEachFourIsGroup4(rest);
      assert Chunks4(w)[1..] == Chunks4(rest);
      assert Group4(w) == w[..4] + " " + Group4(rest);
      assert |w| % 4 == |rest| % 4;
      var t := if |rest| % 4 == 0 then " " else "";
      assert SpaceAfterEachFour(w) == w[..4] + " " + (Group4(rest) + t);
      assert w[..4] + " " + (Group4(rest) + t) == (w[..4] + " " + Group4(rest)) + t;
    }
  }

  lemma AmexReplaceTrimmed(w: string)
    requires NoWhitespace(w)
    ensures Trim(AmexReplace(w)) == AmexLayout(w)
  {
    if |w| < 10 {
      TrimUntouched(w);
    } else if |w| == 10 {
      AmexTenTrimmed(w);
    } else {
      AmexLongTrimmed(w);
    }
  }

  /** Ten characters: the replacement leaves a trailing space to trim. */
  lemma AmexTenTrimmed(w: string)
    requires NoWhitespace(w) && |w| == 10
    ensures Trim(AmexReplace(w)) == AmexLayout(w)
  {
    var a, b := w[..4], w[4..10];
    assert [a, b] + [] == [a, b];
    assert Join([a, b], ' ') == a + " " + b;
    assert AmexReplace(w) == a + " " + b + " ";
    assert (a + " " + b)[|a + " " + b| - 1] == w[9];
    TrimTrailingSpace(a + " " + b);
  }

  /** More than ten characters: nothing to trim. */
  lemma AmexLongTrimmed(w: string)
    requires NoWhitespace(w) && |w| > 10
    ensures Trim(AmexReplace(w)) == AmexLayout(w)
  {
    var a, b, c := w[..4], w[4..10], w[10..];
    assert [a, b] + [c] == [a, b, c];
    assert Join([b, c], ' ') == b + " " + c;
    assert Join([a, b, c], ' ') == a + " " + (b + " " + c);
    var x := AmexReplace(w);
    assert x == a + " " + (b + " " + c);
    assert x[0] == w[0] && x[|x| - 1] == w[|w| - 1];
    TrimUntouched(x);
  }

  /** Removing the spaces from the layout gives back the characters. */
  lemma {:induction false} Group4KeepsCharacters(w: string)
    requires NoWhitespace(w)
    ensures RemoveWhitespace(Group4(w)) == w
    decreases |w|
  {
    if |w| > 4 {
      assert Chunks4(w)[1..] == Chunks4(w[4..]);
      assert Group4(w) == w[..4] + " " + Group4(w[4..]);
      Group4KeepsCharacters(w[4..]);
      RemoveAround(w[..4], Group4(w[4..]));
      assert w == w[..4] + w[4..];
    }
  }

  /** Removing the spaces from the Amex layout gives back the characters. */
  lemma AmexLayoutKeepsCharacters(w: string)
    requires NoWhitespace(w)
    ensures RemoveWhitespace(AmexLayout(w)) == w
  {
    if |w| == 10 {
      AmexTenKeeps(w);
    } else if |w| > 10 {
      AmexLongKeeps(w);
    }
  }

  lemma AmexTenKeeps(w: string)
    requires NoWhitespace(w) && |w| == 10
    ensures RemoveWhitespace(AmexLayout(w)) == w
  {
    var a, b := w[..4], w[4..10];
    assert NoWhitespace(a) && NoWhitespace(b);
    assert [a, b] + [] == [a, b];
    assert Join([a, b], ' ') == a + " " + b;
    RemoveAround(a, b);
    assert w == a + b;
  }

  lemma AmexLongKeeps(w: string)
    requires NoWhitespace(w) && |w| > 10
    ensures RemoveWhitespace(AmexLayout(w)) == w
  {
    var a, b, c := w[..4], w[4..10], w[10..];
    assert NoWhitespace(a) && NoWhitespace(b) && NoWhitespace(c);
    AmexLongLayout(w);
    RemoveAround(b, c);
    RemoveAround(a, b + " " + c);
    assert w == a + (b + c);
  }

  /** More than ten characters: three groups. */
  lemma AmexLongLayout(w: string)
    requires |w| > 10
    ensures AmexLayout(w) == w[..4] + " " + (w[4..10] + " " + w[10..])
  {
    var a, b, c := w[..4], w[4..10], w[10..];
    assert Join([b, c], ' ') == b + " " + c;
    assert [a, b] + [c] == [a, b, c];
  }

  /** A space between two strings disappears with the whitespace. */
  lemma RemoveAround(a: string, b: string)
    ensures RemoveWhitespace(a + " " + b) == RemoveWhitespace(a) + RemoveWhitespace(b)
  {
    KeepAppend(a + " ", b, NotWhitespace);
    KeepAppend(a, " ", NotWhitespace);
    assert Keep(" ", NotWhitespace) == "";
  }

  /** The input handler of the expiry field: the digits, with a `/` after
      the first two once there are two, keeping at most four. */
  function FormatExpiry(input: string): (r: string)
    ensures |DigitsOnly(input)| < 2 ==> r == DigitsOnly(input) && '/' !in r
    ensures |DigitsOnly(input)| >= 2 ==>
      && 3 <= |r| <= 5 && r[2] == '/'
      && AllDigits(r[..2]) && AllDigits(r[3..])
    ensures DigitsOnly(r) == DigitsOnly(input)[..Min(4, |DigitsOnly(input)|)]
  {
    var value := DigitsOnly(input);
    if |value| >= 2 then
      var r := value[..2] + "/" + value[2..Min(4, |value|)];
      RemoveSlash(value[..2], value[2..Min(4, |value|)]);
      assert value[..Min(4, |value|)] == value[..2] + value[2..Min(4, |value|)];
      assert r[..2] == value[..2] && r[3..] == value[2..Min(4, |value|)];
      r
    else
      assert forall i :: 0 <= i < |value| ==> value[i] != '/';
      value
  }

  lemma RemoveSlash(a: string, b: string)
    requires AllDigits(a) && AllDigits(b)
    ensures DigitsOnly(a + "/" + b) == a + b
  {
    KeepAppend(a + "/", b, IsDigit);
    KeepAppend(a, "/", IsDigit);
    assert Keep("/", IsDigit) == "";
    KeepAll(a, IsDigit);
    KeepAll(b, IsDigit);
  }

  /** Re-running the expiry handler on its own output changes nothing. */
  lemma FormatExpiryIdempotent(input: string)
    ensures FormatExpiry(FormatExpiry(input)) == FormatExpiry(input)
  {
    var v := DigitsOnly(input);
    var r := FormatExpiry(input);
    if |v| >= 2 {
      assert r == r[..2] + "/" + r[3..];
      RemoveSlash(r[..2], r[3..]);
    }
  }

  /** The input handler of the CVV field. */
  function FormatCvv(input: string): (r: string)
    ensures AllDigits(r)
    ensures forall c :: multiset(r)[c] == if IsDigit(c) then multiset(input)[c] else 0
  {
    KeepCounts(input, IsDigit);
    DigitsOnly(input)
  }

  /** The CVV handler works character by character: it keeps a digit,
      drops anything else, and handles the parts of a string independently,
      which fixes its result on every input. */
  lemma FormatCvvIsDigitFilter(a: string, b: string, c: char)
    ensures FormatCvv(a + b) == FormatCvv(a) + FormatCvv(b)
    ensures FormatCvv([c]) == if IsDigit(c) then [c] else []
    ensures FormatCvv(FormatCvv(a)) == FormatCvv(a)
  {
    KeepAppend(a, b, IsDigit);
  }
}

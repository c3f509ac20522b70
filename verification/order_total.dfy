/** The order total the server computes from a client-submitted item list
    (`calculateOrderTotal` in server/server.js). */
module OrderTotal {

  /** The number `Number(item?.price)` yields: a finite value, or one of
      NaN / +-Infinity, which the total treats alike. How `Number` coerces a
      JSON value is not modelled; the item carries the coerced number. */
  datatype Num = Finite(value: real) | NotFinite

  datatype LineItem = LineItem(price: Num)

  /** An item whose price is finite and strictly positive; only such items
      count towards the total. */
  predicate Counts(item: LineItem) {
    item.price.Finite? && item.price.value > 0.0
  }

  /** The contribution of one item to the total (`safePrice`). */
  function SafePrice(item: LineItem): (p: real)
    ensures p >= 0.0
    ensures Counts(item) ==> p == item.price.value
    ensures !Counts(item) ==> p == 0.0
  {
    if item.price.Finite? && item.price.value > 0.0 then item.price.value else 0.0
  }

  /** `items.reduce((sum, item) => sum + safePrice, 0)`: a left fold. */
  function CalculateOrderTotal(items: seq<LineItem>): (total: real)
    ensures total >= 0.0
    ensures total == 0.0 <==> forall i :: 0 <= i < |items| ==> !Counts(items[i])
  {
    if |items| == 0 then 0.0
    else CalculateOrderTotal(items[..|items| - 1]) + SafePrice(items[|items| - 1])
  }

  /** The prices of the items that count, in order: an independent reference
      for what the total adds up. */
  function ValidPrices(items: seq<LineItem>): (ps: seq<real>)
    ensures forall i :: 0 <= i < |ps| ==> ps[i] > 0.0
    ensures |ps| <= |items|
  {
    if |items| == 0 then []
    else if Counts(items[0]) then [items[0].price.value] + ValidPrices(items[1..])
    else ValidPrices(items[1..])
  }

  function Sum(xs: seq<real>): real {
    if |xs| == 0 then 0.0 else xs[0] + Sum(xs[1..])
  }

  lemma {:induction false} SumAppend(xs: seq<real>, ys: seq<real>)
    ensures Sum(xs + ys) == Sum(xs) + Sum(ys)
  {
    if |xs| == 0 {
      assert xs + ys == ys;
    } else {
      assert (xs + ys)[1..] == xs[1..] + ys;
      SumAppend(xs[1..], ys);
    }
  }

  lemma {:induction false} ValidPricesAppend(a: seq<LineItem>, b: seq<LineItem>)
    ensures ValidPrices(a + b) == ValidPrices(a) + ValidPrices(b)
  {
    if |a| == 0 {
      assert a + b == b;
    } else {
      assert (a + b)[1..] == a[1..] + b;
      ValidPricesAppend(a[1..], b);
    }
  }

  /** Appending an item adds its price when it is finite and positive and
      nothing otherwise. */
  lemma TotalAppend(items: seq<LineItem>, item: LineItem)
    ensures CalculateOrderTotal(items + [item])
         == CalculateOrderTotal(items) + (if Counts(item) then item.price.value else 0.0)
  {
    assert (items + [item])[..|items|] == items;
  }

  /** The fold equals the plain sum of the prices that count: invalid items
      contribute nothing and every valid item contributes exactly its price. */
  lemma {:induction false} TotalIsSumOfValidPrices(items: seq<LineItem>)
    ensures CalculateOrderTotal(items) == Sum(ValidPrices(items))
  {
    if |items| > 0 {
      var init, last := items[..|items| - 1], items[|items| - 1];
      assert items == init + [last];
      TotalIsSumOfValidPrices(init);
      ValidPricesAppend(init, [last]);
      assert [last][1..] == [];
      SumAppend(ValidPrices(init), ValidPrices([last]));
    }
  }

  /** A non-numeric price, a negative price and a price of 10 total 10:
      only the last item counts. */
  lemma TotalExample()
    ensures CalculateOrderTotal([LineItem(NotFinite), LineItem(Finite(-5.0)), LineItem(Finite(10.0))]) == 10.0
  {
    var items := [LineItem(NotFinite), LineItem(Finite(-5.0)), LineItem(Finite(10.0))];
    assert items[..2][..1] == [LineItem(NotFinite)];
    assert items[..2][..1][..0] == [];
  }
}

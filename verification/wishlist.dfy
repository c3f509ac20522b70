/** The wishlist of the basket page (assets/js/basket.js): an ordered list
    of course entries, upserted and removed by `id`. */
module Wishlist {
  import opened Optional

  /** A wishlist entry: a JSON object of string fields (`id`, `title`,
      `price`, `image`, ...). */
  type Entry = map<string, string>

  /** `entry.id`, `None` standing for `undefined`. Two entries match under
      `===` exactly when their `IdOf` values are equal; in particular two
      entries without an id match each other. */
  function IdOf(e: Entry): Option<string> {
    if "id" in e then Some(e["id"]) else None
  }

  /** `wishlist.findIndex((w) => w.id === id)`: the first position holding
      `id`, or -1. */
  function FindIndex(w: seq<Entry>, id: Option<string>): (i: int)
    ensures -1 <= i < |w|
    ensures i == -1 <==> forall j :: 0 <= j < |w| ==> IdOf(w[j]) != id
    ensures i >= 0 ==> IdOf(w[i]) == id && forall j :: 0 <= j < i ==> IdOf(w[j]) != id
  {
    if |w| == 0 then -1
    else if IdOf(w[0]) == id then 0
    else
      var i := FindIndex(w[1..], id);
      if i == -1 then -1 else i + 1
  }

  /** `addToWishlist(item)`: an entry with a new id is appended; otherwise
      the first entry with that id takes the new item's fields over its
      old ones (`{ ...old, ...item }`) and nothing else moves. */
  function AddToWishlist(w: seq<Entry>, item: Entry): (r: seq<Entry>)
    ensures FindIndex(w, IdOf(item)) == -1 ==> r == w + [item]
    ensures FindIndex(w, IdOf(item)) >= 0 ==>
      var i := FindIndex(w, IdOf(item));
      && |r| == |w| && r[i] == w[i] + item
      && (forall j :: 0 <= j < |w| && j != i ==> r[j] == w[j])
    ensures |r| > 0
  {
    var existingIndex := FindIndex(w, IdOf(item));
    if existingIndex == -1 then w + [item]
    else w[existingIndex := w[existingIndex] + item]
  }

  /** `removeFromWishlist(itemId)`: the entries whose id is not `itemId`. */
  function RemoveFromWishlist(w: seq<Entry>, itemId: string): (r: seq<Entry>)
    ensures |r| <= |w|
    ensures forall k :: 0 <= k < |r| ==> IdOf(r[k]) != Some(itemId)
  {
    if |w| == 0 then []
    else if IdOf(w[0]) != Some(itemId) then [w[0]] + RemoveFromWishlist(w[1..], itemId)
    else RemoveFromWishlist(w[1..], itemId)
  }

  /** No two entries share an id (`undefined` counting as one value). */
  predicate UniqueIds(w: seq<Entry>) {
    forall i, j :: 0 <= i < j < |w| ==> IdOf(w[i]) != IdOf(w[j])
  }

  /** Upserting keeps ids unique: the merged entry keeps its id. */
  lemma AddKeepsIdsUnique(w: seq<Entry>, item: Entry)
    requires UniqueIds(w)
    ensures UniqueIds(AddToWishlist(w, item))
  {
    var i := FindIndex(w, IdOf(item));
    var r := AddToWishlist(w, item);
    if i >= 0 {
      assert IdOf(r[i]) == IdOf(w[i]);
      forall j | 0 <= j < |r| ensures IdOf(r[j]) == IdOf(w[j]) {
      }
    } else {
      forall a, b | 0 <= a < b < |r| ensures IdOf(r[a]) != IdOf(r[b]) {
        if b == |w| {
          assert IdOf(r[a]) == IdOf(w[a]);
        }
      }
    }
  }

  /** `r` is `w` with some entries left out, the rest in their order. */
  predicate IsSubsequence(r: seq<Entry>, w: seq<Entry>)
    decreases |w|
  {
    if |r| == 0 then true
    else if |w| == 0 then false
    else if r[0] == w[0] then IsSubsequence(r[1..], w[1..])
    else IsSubsequence(r, w[1..])
  }

  /** Removal keeps the other entries in their original relative order, and
      keeps every one of them. */
  lemma {:induction false} RemoveKeepsOthersInOrder(w: seq<Entry>, itemId: string)
    ensures IsSubsequence(RemoveFromWishlist(w, itemId), w)
    ensures forall e :: IdOf(e) != Some(itemId) ==>
      multiset(RemoveFromWishlist(w, itemId))[e] == multiset(w)[e]
    decreases |w|
  {
    if |w| > 0 {
      RemoveKeepsOthersInOrder(w[1..], itemId);
      assert w == [w[0]] + w[1..];
      var r := RemoveFromWishlist(w, itemId);
      if IdOf(w[0]) != Some(itemId) {
        assert r[1..] == RemoveFromWishlist(w[1..], itemId);
      }
    }
  }

  /** Removing an id no entry carries changes nothing. */
  lemma {:induction false} RemoveAbsent(w: seq<Entry>, itemId: string)
    requires forall k :: 0 <= k < |w| ==> IdOf(w[k]) != Some(itemId)
    ensures RemoveFromWishlist(w, itemId) == w
    decreases |w|
  {
    if |w| > 0 {
      RemoveAbsent(w[1..], itemId);
      assert w == [w[0]] + w[1..];
    }
  }

  lemma {:induction false} RemoveAppend(a: seq<Entry>, b: seq<Entry>, itemId: string)
    ensures RemoveFromWishlist(a + b, itemId) == RemoveFromWishlist(a, itemId) + RemoveFromWishlist(b, itemId)
    decreases |a|
  {
    if |a| == 0 {
      assert a + b == b;
    } else {
      assert (a + b)[1..] == a[1..] + b;
      RemoveAppend(a[1..], b, itemId);
    }
  }

  /** Adding an entry with a new id and then removing that id restores the
      wishlist. */
  lemma AddThenRemove(w: seq<Entry>, item: Entry, itemId: string)
    requires IdOf(item) == Some(itemId)
    requires FindIndex(w, IdOf(item)) == -1
    ensures RemoveFromWishlist(AddToWishlist(w, item), itemId) == w
  {
    RemoveAppend(w, [item], itemId);
    RemoveAbsent(w, itemId);
    assert RemoveFromWishlist([item], itemId) == [];
  }

  /** What the checkout button does. */
  datatype CheckoutAction = GoToCheckout | ShowEmptyNotice

  /** The checkout button leaves the basket page exactly when the wishlist
      is non-empty. */
  function CheckoutClick(w: seq<Entry>): (a: CheckoutAction)
    ensures a == GoToCheckout <==> |w| > 0
  {
    if |w| > 0 then GoToCheckout else ShowEmptyNotice
  }

  /** Removing an id empties the wishlist exactly when every entry carries
      that id. */
  lemma {:induction false} RemoveEmptyIff(w: seq<Entry>, itemId: string)
    ensures RemoveFromWishlist(w, itemId) == [] <==> forall k :: 0 <= k < |w| ==> IdOf(w[k]) == Some(itemId)
  {
    if |w| > 0 {
      RemoveEmptyIff(w[1..], itemId);
      if IdOf(w[0]) == Some(itemId) {
        assert forall k :: 1 <= k < |w| ==> w[k] == w[1..][k - 1];
      }
    }
  }

  /** The checkout button after the wishlist operations: it always
      navigates once something was added, and after a removal it shows the
      empty notice exactly when every entry carried the removed id. */
  lemma CheckoutAfterEdits(w: seq<Entry>, item: Entry, itemId: string)
    ensures CheckoutClick(AddToWishlist(w, item)) == GoToCheckout
    ensures CheckoutClick(RemoveFromWishlist(w, itemId)) == ShowEmptyNotice <==>
      forall k :: 0 <= k < |w| ==> IdOf(w[k]) == Some(itemId)
  {
    RemoveEmptyIff(w, itemId);
  }
}

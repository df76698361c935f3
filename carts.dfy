/**
 * The cart routes: remove a line item, replace all line items, set one
 * line item's quantity, and delete a cart. The carts collection is a table
 * from cart id to the cart's ordered line items; each handler reads one
 * cart, changes it and writes it back, or fails with "not found".
 */
module Carts {
  import opened Wrappers

  type CartId = string
  type ProductId = string

  /**
   * A line item. The handlers match on `id`, compared with the product id
   * taken from the path; the schema's own reference field is `productId`,
   * which no handler reads. `quantity` has no floor: the handlers store
   * whatever the request body supplies (new items default to 1 in the schema).
   */
  datatype LineItem = LineItem(id: string, productId: ProductId, quantity: int)

  /** What a handler answers: the affected cart's line items, or a 404 message. */
  datatype Outcome = Ok(payload: seq<LineItem>) | NotFound(message: string)

  const CartNotFound: string := "Cart not found"
  const ItemNotFound: string := "Product not found in cart"

  /** The line items kept by `filter(product => product.id !== pid)`. */
  function Without(items: seq<LineItem>, pid: string): (r: seq<LineItem>)
    ensures forall i :: 0 <= i < |r| ==> r[i].id != pid
    ensures |r| <= |items|
  {
    if items == [] then []
    else (if items[0].id != pid then [items[0]] else []) + Without(items[1..], pid)
  }

  /** An item is kept exactly when it was present and its id differs from `pid`. */
  lemma {:induction false} WithoutMembers(items: seq<LineItem>, pid: string, x: LineItem)
    ensures x in Without(items, pid) <==> x in items && x.id != pid
  {
    if items != [] {
      WithoutMembers(items[1..], pid, x);
      assert x in items <==> x == items[0] || x in items[1..];
    }
  }

  /**
   * Filtering distributes over concatenation: the kept items stay in their
   * original relative order.
   */
  lemma {:induction false} WithoutAppend(a: seq<LineItem>, b: seq<LineItem>, pid: string)
    ensures Without(a + b, pid) == Without(a, pid) + Without(b, pid)
  {
    if a != [] {
      WithoutAppend(a[1..], b, pid);
      assert (a + b)[1..] == a[1..] + b;
    } else {
      assert a + b == b;
    }
  }

  /** Removing an id no item carries changes nothing. */
  lemma {:induction false} WithoutAbsent(items: seq<LineItem>, pid: string)
    requires forall i :: 0 <= i < |items| ==> items[i].id != pid
    ensures Without(items, pid) == items
  {
    if items != [] {
      WithoutAbsent(items[1..], pid);
    }
  }

  /** Removing the same id twice is the same as removing it once. */
  lemma WithoutIdempotent(items: seq<LineItem>, pid: string)
    ensures Without(Without(items, pid), pid) == Without(items, pid)
  {
    WithoutAbsent(Without(items, pid), pid);
  }

  /** Removing two ids gives the same items in either order. */
  lemma {:induction false} WithoutCommutes(items: seq<LineItem>, p1: string, p2: string)
    ensures Without(Without(items, p1), p2) == Without(Without(items, p2), p1)
  {
    if items != [] {
      var head := items[..1];
      assert items == head + items[1..];
      WithoutAppend(head, items[1..], p1);
      WithoutAppend(head, items[1..], p2);
      WithoutAppend(Without(head, p1), Without(items[1..], p1), p2);
      WithoutAppend(Without(head, p2), Without(items[1..], p2), p1);
      WithoutCommutes(items[1..], p1, p2);
    }
  }

  /** The index `find(product => product.id === pid)` stops at, if any. */
  function FindFirst(items: seq<LineItem>, pid: string): (r: Option<nat>)
    ensures r.Some? ==> r.value < |items| && items[r.value].id == pid
    ensures r.Some? ==> forall j :: 0 <= j < r.value ==> items[j].id != pid
    ensures r.None? <==> forall j :: 0 <= j < |items| ==> items[j].id != pid
  {
    if items == [] then None
    else if items[0].id == pid then Some(0)
    else match FindFirst(items[1..], pid)
      case Some(i) => Some(i + 1)
      case None => None
  }

  /** The items after the found one's quantity is overwritten. */
  function SetQuantityAt(items: seq<LineItem>, i: nat, quantity: int): (r: seq<LineItem>)
    requires i < |items|
    ensures |r| == |items|
    ensures r[i].id == items[i].id && r[i].productId == items[i].productId && r[i].quantity == quantity
    ensures forall j :: 0 <= j < |items| && j != i ==> r[j] == items[j]
  {
    items[i := items[i].(quantity := quantity)]
  }

  /** Setting a quantity is an overwrite: the last value written wins. */
  lemma SetQuantityOverwrites(items: seq<LineItem>, pid: string, q1: int, q2: int)
    requires FindFirst(items, pid).Some?
    ensures var i := FindFirst(items, pid).value;
            && FindFirst(SetQuantityAt(items, i, q1), pid) == Some(i)
            && SetQuantityAt(SetQuantityAt(items, i, q1), i, q2) == SetQuantityAt(items, i, q2)
  {
  }

  /** Every cart other than `cid` is present, absent and equal as before. */
  ghost predicate OthersUnchanged(before: map<CartId, seq<LineItem>>,
                                  after: map<CartId, seq<LineItem>>, cid: CartId)
  {
    forall c :: c != cid ==>
      (c in after <==> c in before) && (c in after ==> after[c] == before[c])
  }

  /** The carts collection. */
  class CartStore {
    var carts: map<CartId, seq<LineItem>>

    constructor (initial: map<CartId, seq<LineItem>>)
      ensures carts == initial
    {
      carts := initial;
    }

    /** DELETE /carts/:cid/products/:pid */
    method RemoveItem(cid: CartId, pid: string) returns (r: Outcome)
      modifies this
      ensures cid !in old(carts) ==> r == NotFound(CartNotFound) && carts == old(carts)
      ensures cid in old(carts) ==>
                && r == Ok(Without(old(carts)[cid], pid))
                && carts == old(carts)[cid := Without(old(carts)[cid], pid)]
      ensures OthersUnchanged(old(carts), carts, cid)
    {
      if cid !in carts {
        return NotFound(CartNotFound);
      }
      var kept := Without(carts[cid], pid);
      carts := carts[cid := kept];
      r := Ok(kept);
    }

    /** PUT /carts/:cid — the body's line items replace the cart's, verbatim. */
    method ReplaceAll(cid: CartId, items: seq<LineItem>) returns (r: Outcome)
      modifies this
      ensures cid !in old(carts) ==> r == NotFound(CartNotFound) && carts == old(carts)
      ensures cid in old(carts) ==> r == Ok(items) && carts == old(carts)[cid := items]
      ensures OthersUnchanged(old(carts), carts, cid)
    {
      if cid !in carts {
        return NotFound(CartNotFound);
      }
      carts := carts[cid := items];
      r := Ok(items);
    }

    /** PUT /carts/:cid/products/:pid — overwrite the first matching item's quantity. */
    method SetQuantity(cid: CartId, pid: string, quantity: int) returns (r: Outcome)
      modifies this
      ensures cid !in old(carts) ==> r == NotFound(CartNotFound) && carts == old(carts)
      ensures cid in old(carts) && FindFirst(old(carts)[cid], pid).None? ==>
                r == NotFound(ItemNotFound) && carts == old(carts)
      ensures cid in old(carts) && FindFirst(old(carts)[cid], pid).Some? ==>
                var updated := SetQuantityAt(old(carts)[cid], FindFirst(old(carts)[cid], pid).value, quantity);
                r == Ok(updated) && carts == old(carts)[cid := updated]
      ensures OthersUnchanged(old(carts), carts, cid)
    {
      if cid !in carts {
        return NotFound(CartNotFound);
      }
      var items := carts[cid];
      match FindFirst(items, pid)
      case None =>
        r := NotFound(ItemNotFound);
      case Some(i) =>
        var updated := SetQuantityAt(items, i, quantity);
        carts := carts[cid := updated];
        r := Ok(updated);
    }

    /** DELETE /carts/:cid — answers with the deleted cart's line items. */
    method DeleteCart(cid: CartId) returns (r: Outcome)
      modifies this
      ensures cid !in old(carts) ==> r == NotFound(CartNotFound) && carts == old(carts)
      ensures cid in old(carts) ==> r == Ok(old(carts)[cid]) && carts == old(carts) - {cid}
      ensures cid !in carts
      ensures OthersUnchanged(old(carts), carts, cid)
    {
      if cid !in carts {
        return NotFound(CartNotFound);
      }
      r := Ok(carts[cid]);
      carts := carts - {cid};
    }
  }
}

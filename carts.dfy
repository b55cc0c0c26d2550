/**
 * Shopping carts (controllers/cart.controller.js). Each user has at most one cart, a list of
 * line items edited in place: add merges into the line for the same product or appends one,
 * update sets the quantity of the first line for a product, remove pulls every line for a
 * product, clear empties the list. No cart operation reads or writes product stock: every
 * method below may change only the cart collection.
 */
module Carts {
  import opened Common
  import opened Store
  import opened Collections

  /** `Array.prototype.findIndex` on the product of each line: the first matching index, or -1. */
  function IndexOf(items: seq<LineItem>, product: Id): (r: int)
    ensures -1 <= r < |items|
    ensures r == -1 <==> forall i :: 0 <= i < |items| ==> items[i].product != product
    ensures 0 <= r ==> items[r].product == product && forall i :: 0 <= i < r ==> items[i].product != product
  {
    if items == [] then -1
    else if items[0].product == product then 0
    else
      var k := IndexOf(items[1..], product);
      assert forall i :: 1 <= i < |items| ==> items[i] == items[1..][i - 1];
      if k == -1 then -1 else k + 1
  }

  /** The lines of an existing cart after addToCart (cart.controller.js:26-31). */
  function AddLine(items: seq<LineItem>, product: Id, quantity: int): seq<LineItem> {
    var k := IndexOf(items, product);
    if k > -1 then items[k := items[k].(quantity := items[k].quantity + quantity)]
    else items + [LineItem(product, quantity)]
  }

  /** Adding a product the cart holds adds to that line's quantity; the length and the other lines stay. */
  lemma AddMergesExisting(items: seq<LineItem>, product: Id, quantity: int, k: nat)
    requires k < |items| && items[k].product == product
    requires forall i :: 0 <= i < k ==> items[i].product != product
    ensures |AddLine(items, product, quantity)| == |items|
    ensures AddLine(items, product, quantity)[k] == LineItem(product, items[k].quantity + quantity)
    ensures forall i :: 0 <= i < |items| && i != k ==> AddLine(items, product, quantity)[i] == items[i]
  {
  }

  /** Adding a product the cart does not hold appends exactly one line and keeps the earlier ones. */
  lemma AddAppendsNew(items: seq<LineItem>, product: Id, quantity: int)
    requires forall i :: 0 <= i < |items| ==> items[i].product != product
    ensures AddLine(items, product, quantity) == items + [LineItem(product, quantity)]
  {
  }

  /** Adding to a cart keeps its lines' products distinct. */
  lemma AddPreservesDistinct(items: seq<LineItem>, product: Id, quantity: int)
    requires DistinctProducts(items)
    ensures DistinctProducts(AddLine(items, product, quantity))
  {
    var r := AddLine(items, product, quantity);
    if IndexOf(items, product) == -1 {
      forall i, j | 0 <= i < j < |r| ensures r[i].product != r[j].product {
        if j == |items| {
          assert r[i] == items[i];
        }
      }
    }
  }

  /** Adding `a` then `b` units of a product the cart does not hold leaves one line of `a + b` units. */
  lemma AddTwiceSums(items: seq<LineItem>, product: Id, a: int, b: int)
    requires forall i :: 0 <= i < |items| ==> items[i].product != product
    ensures AddLine(AddLine(items, product, a), product, b) == items + [LineItem(product, a + b)]
  {
    var once := AddLine(items, product, a);
    assert once == items + [LineItem(product, a)];
    assert once[|items|].product == product;
    assert IndexOf(once, product) == |items|;
  }

  /** The lines after removeItem's `$pull` (cart.controller.js:68): every line for `product` goes. */
  function Without(items: seq<LineItem>, product: Id): (r: seq<LineItem>)
    ensures forall line :: line in r <==> line in items && line.product != product
  {
    Filter(items, (line: LineItem) => line.product != product)
  }

  /** Removing distributes over concatenation, so the remaining lines keep their relative order. */
  lemma RemoveKeepsOrder(a: seq<LineItem>, b: seq<LineItem>, product: Id)
    ensures Without(a + b, product) == Without(a, product) + Without(b, product)
  {
    FilterConcat(a, b, (line: LineItem) => line.product != product);
  }

  /** Removing a product that no line names leaves the lines as they are; removing twice is removing once. */
  lemma RemoveUnnamedAndTwice(items: seq<LineItem>, product: Id)
    ensures (forall i :: 0 <= i < |items| ==> items[i].product != product) ==> Without(items, product) == items
    ensures Without(Without(items, product), product) == Without(items, product)
  {
    var keep := (line: LineItem) => line.product != product;
    if forall i :: 0 <= i < |items| ==> items[i].product != product {
      FilterKeepsAll(items, keep);
    }
    FilterIdempotent(items, keep);
  }

  /** Removing lines keeps the products of the remaining lines distinct. */
  lemma {:induction false} RemovePreservesDistinct(items: seq<LineItem>, product: Id)
    requires DistinctProducts(items)
    ensures DistinctProducts(Without(items, product))
  {
    if items != [] {
      var keep := (line: LineItem) => line.product != product;
      var tail := items[1..];
      RemovePreservesDistinct(tail, product);
      var rest := Without(tail, product);
      assert Without(items, product) == (if keep(items[0]) then [items[0]] else []) + rest;
      forall line | line in rest ensures line.product != items[0].product {
        var k :| 0 <= k < |tail| && tail[k] == line;
        assert items[k + 1] == line;
      }
      var r := Without(items, product);
      forall i, j | 0 <= i < j < |r| ensures r[i].product != r[j].product {
        if keep(items[0]) {
          assert r[j] == rest[j - 1] && rest[j - 1] in rest;
          if i > 0 {
            assert r[i] == rest[i - 1];
          }
        }
      }
    }
  }

  /** Every cart lists each product at most once. */
  predicate CartsDistinct(carts: map<Id, seq<LineItem>>) {
    forall user :: user in carts ==> DistinctProducts(carts[user])
  }

  /** The cart collection after clearCart's `$set: { items: [] }`; the update does not create a missing cart. */
  function Cleared(carts: map<Id, seq<LineItem>>, user: Id): (r: map<Id, seq<LineItem>>)
    ensures r.Keys == carts.Keys
    ensures user in carts ==> r[user] == []
    ensures forall other :: other in carts && other != user ==> r[other] == carts[other]
  {
    if user in carts then carts[user := []] else carts
  }

  /** Clearing a cart twice leaves the same collection as clearing it once. */
  lemma ClearTwice(carts: map<Id, seq<LineItem>>, user: Id)
    ensures Cleared(Cleared(carts, user), user) == Cleared(carts, user)
  {
  }

  /** getCart (cart.controller.js:5-13): the user's lines, or NotFound when the user has no cart. */
  function GetCart(carts: map<Id, seq<LineItem>>, user: Id): (r: Result<seq<LineItem>>)
    ensures r.Err? <==> user !in carts
    ensures r.Err? ==> r.error == NotFound
    ensures r.Ok? ==> r.value == carts[user]
  {
    if user in carts then Ok(carts[user]) else Err(NotFound)
  }

  /**
   * After one user's cart is written, getCart answers the written lines for that user and what it
   * answered before for every other user.
   */
  lemma GetCartAfterWrite(carts: map<Id, seq<LineItem>>, user: Id, cart: seq<LineItem>, other: Id)
    ensures GetCart(carts[user := cart], user) == Ok(cart)
    ensures other != user ==> GetCart(carts[user := cart], other) == GetCart(carts, other)
  {
  }

  /**
   * After clearCart, getCart answers an empty cart to a user who had one and still NotFound to a
   * user who had none; no other user's answer changes.
   */
  lemma GetCartAfterClear(carts: map<Id, seq<LineItem>>, user: Id, other: Id)
    ensures user in carts ==> GetCart(Cleared(carts, user), user) == Ok([])
    ensures user !in carts ==> GetCart(Cleared(carts, user), user) == Err(NotFound)
    ensures other != user ==> GetCart(Cleared(carts, user), other) == GetCart(carts, other)
  {
  }

  /**
   * addToCart (cart.controller.js:16-35): a user without a cart gets a cart of one line; otherwise
   * the line for the product is increased, or a new line is pushed at the end.
   */
  method AddToCart(db: Database, user: Id, product: Id, quantity: int) returns (cart: seq<LineItem>)
    modifies db`carts
    ensures user !in old(db.carts) ==> cart == [LineItem(product, quantity)]
    ensures user in old(db.carts) ==> cart == AddLine(old(db.carts)[user], product, quantity)
    ensures db.carts == old(db.carts)[user := cart]
    ensures GetCart(db.carts, user) == Ok(cart)
    ensures CartsDistinct(old(db.carts)) ==> CartsDistinct(db.carts)
  {
    if user !in db.carts {
      cart := [LineItem(product, quantity)];
    } else {
      cart := db.carts[user];
      var k := IndexOf(cart, product);
      if k > -1 {
        cart := cart[k := cart[k].(quantity := cart[k].quantity + quantity)];
      } else {
        cart := cart + [LineItem(product, quantity)];
      }
      if DistinctProducts(db.carts[user]) {
        AddPreservesDistinct(db.carts[user], product, quantity);
      }
    }
    db.carts := db.carts[user := cart];
  }

  /**
   * updateQuantity (cart.controller.js:42-56): NotFound without a cart or without a line for the
   * product; otherwise the first line for the product gets the new quantity and nothing else changes.
   */
  method UpdateQuantity(db: Database, user: Id, product: Id, quantity: int) returns (r: Result<seq<LineItem>>)
    modifies db`carts
    ensures user !in old(db.carts) ==> r == Err(NotFound)
    ensures user in old(db.carts) && IndexOf(old(db.carts)[user], product) == -1 ==> r == Err(NotFound)
    ensures user in old(db.carts) && IndexOf(old(db.carts)[user], product) != -1 ==> r.Ok?
    ensures r.Err? ==> db.carts == old(db.carts)
    ensures r.Ok? ==>
      var before := old(db.carts)[user];
      var k := IndexOf(before, product);
      user in old(db.carts) && 0 <= k
      && r.value == before[k := LineItem(product, quantity)]
      && db.carts == old(db.carts)[user := r.value]
    ensures r.Ok? ==> GetCart(db.carts, user) == Ok(r.value)
    ensures CartsDistinct(old(db.carts)) ==> CartsDistinct(db.carts)
  {
    if user !in db.carts {
      return Err(NotFound);
    }
    var items := db.carts[user];
    var k := IndexOf(items, product);
    if k == -1 {
      return Err(NotFound);
    }
    items := items[k := items[k].(quantity := quantity)];
    db.carts := db.carts[user := items];
    r := Ok(items);
  }

  /**
   * removeItem (cart.controller.js:63-71): pulls every line for the product. A user without a cart
   * gets a null response (None here) and nothing changes.
   */
  method RemoveItem(db: Database, user: Id, product: Id) returns (cart: Option<seq<LineItem>>)
    modifies db`carts
    ensures user !in old(db.carts) ==> cart == None && db.carts == old(db.carts)
    ensures user in old(db.carts) ==>
      cart == Some(Without(old(db.carts)[user], product)) && db.carts == old(db.carts)[user := cart.value]
    ensures cart.Some? ==> GetCart(db.carts, user) == Ok(cart.value)
    ensures CartsDistinct(old(db.carts)) ==> CartsDistinct(db.carts)
  {
    if user !in db.carts {
      return None;
    }
    var items := Without(db.carts[user], product);
    if DistinctProducts(db.carts[user]) {
      RemovePreservesDistinct(db.carts[user], product);
    }
    db.carts := db.carts[user := items];
    cart := Some(items);
  }

  /** clearCart (cart.controller.js:78-81): empties the user's cart if there is one. */
  method ClearCart(db: Database, user: Id)
    modifies db`carts
    ensures db.carts == Cleared(old(db.carts), user)
    ensures GetCart(db.carts, user) == if user in old(db.carts) then Ok([]) else Err(NotFound)
    ensures CartsDistinct(old(db.carts)) ==> CartsDistinct(db.carts)
  {
    if user in db.carts {
      db.carts := db.carts[user := []];
    }
  }
}

/**
 * Order placement and order status updates (controllers/order.controller.js).
 *
 * Placement runs in two phases over the product collection: every line item is checked
 * first, and only when all of them pass is any stock decremented; then a `pending`
 * order is recorded. The check is made per line item against the stock as it was
 * before the order, not per product, which the lemmas at the end make precise.
 */
module Orders {
  import opened Common
  import opened Store

  /** The check of one line item (order.controller.js:16-18): the product must exist and have enough stock. */
  function CheckItem(products: map<Id, Product>, item: LineItem): Option<Error> {
    if item.product !in products then Some(NotFound)
    else if products[item.product].quantity < item.quantity then
      Some(InsufficientStock(products[item.product].productName))
    else None
  }

  /** The error of the first line item that fails its check, or None when all pass. */
  function FirstFailure(products: map<Id, Product>, items: seq<LineItem>): Option<Error> {
    if items == [] then None
    else if CheckItem(products, items[0]).Some? then CheckItem(products, items[0])
    else FirstFailure(products, items[1..])
  }

  /** Validation passes exactly when every line item, taken alone, passes its check. */
  lemma {:induction false} NoFailureIffAllPass(products: map<Id, Product>, items: seq<LineItem>)
    ensures FirstFailure(products, items) == None <==>
      forall i :: 0 <= i < |items| ==>
        items[i].product in products && items[i].quantity <= products[items[i].product].quantity
  {
    if items != [] {
      NoFailureIffAllPass(products, items[1..]);
      assert forall i :: 1 <= i < |items| ==> items[i] == items[1..][i - 1];
    }
  }

  /** When validation fails, it fails with the error of the first failing line item. */
  lemma {:induction false} FailureIsFirst(products: map<Id, Product>, items: seq<LineItem>, k: nat)
    requires k < |items| && CheckItem(products, items[k]).Some?
    requires forall j :: 0 <= j < k ==> CheckItem(products, items[j]) == None
    ensures FirstFailure(products, items) == CheckItem(products, items[k])
  {
    if k > 0 {
      assert forall j :: 0 <= j < k - 1 ==> items[1..][j] == items[j + 1];
      FailureIsFirst(products, items[1..], k - 1);
    }
  }

  /** Requesting exactly the available stock of an existing product passes the check. */
  lemma ExactStockPasses(products: map<Id, Product>, id: Id)
    requires id in products
    ensures FirstFailure(products, [LineItem(id, products[id].quantity)]) == None
  {
    assert [LineItem(id, products[id].quantity)][1..] == [];
  }

  /** The validation loop of order.controller.js:15-19; it reads the store and changes nothing. */
  method CheckStock(db: Database, items: seq<LineItem>) returns (failure: Option<Error>)
    ensures failure == FirstFailure(db.products, items)
  {
    var i := 0;
    while i < |items|
      invariant 0 <= i <= |items|
      invariant FirstFailure(db.products, items) == FirstFailure(db.products, items[i..])
    {
      assert items[i..][1..] == items[i + 1..];
      var item := items[i];
      if item.product !in db.products {
        return Some(NotFound);
      }
      var product := db.products[item.product];
      if product.quantity < item.quantity {
        return Some(InsufficientStock(product.productName));
      }
      i := i + 1;
    }
    assert items[i..] == [];
    failure := None;
  }

  /** One `$inc: { quantity: -item.quantity }`; updating a missing id changes nothing. */
  function DebitOne(products: map<Id, Product>, item: LineItem): map<Id, Product> {
    if item.product in products then
      products[item.product := products[item.product].(quantity := products[item.product].quantity - item.quantity)]
    else products
  }

  /** The stock after the debit loop has processed every line item in order. */
  function Debit(products: map<Id, Product>, items: seq<LineItem>): map<Id, Product>
    decreases |items|
  {
    if items == [] then products
    else DebitOne(Debit(products, items[..|items| - 1]), items[|items| - 1])
  }

  /** The total quantity the line items request of one product. */
  function SumFor(items: seq<LineItem>, id: Id): int
    decreases |items|
  {
    if items == [] then 0
    else
      var last := items[|items| - 1];
      SumFor(items[..|items| - 1], id) + (if last.product == id then last.quantity else 0)
  }

  /**
   * After the debit, each product's stock has gone down by the sum of the quantities of the line
   * items naming it, its other fields are untouched, no product appears or disappears, and a
   * product no line item names is unchanged.
   */
  lemma {:induction false} DebitTotals(products: map<Id, Product>, items: seq<LineItem>)
    ensures Debit(products, items).Keys == products.Keys
    ensures forall id :: id in products ==>
      Debit(products, items)[id] == products[id].(quantity := products[id].quantity - SumFor(items, id))
    ensures forall id :: id in products && (forall i :: 0 <= i < |items| ==> items[i].product != id) ==>
      Debit(products, items)[id] == products[id]
  {
    if items != [] {
      var init := items[..|items| - 1];
      DebitTotals(products, init);
      forall id | id in products && (forall i :: 0 <= i < |items| ==> items[i].product != id)
        ensures SumFor(items, id) == 0
      {
        SumForUnnamed(items, id);
      }
    }
  }

  lemma {:induction false} SumForUnnamed(items: seq<LineItem>, id: Id)
    requires forall i :: 0 <= i < |items| ==> items[i].product != id
    ensures SumFor(items, id) == 0
  {
    if items != [] {
      SumForUnnamed(items[..|items| - 1], id);
    }
  }

  /** With distinct products, the quantity requested of a product is that of the one line naming it. */
  lemma {:induction false} SumForDistinct(items: seq<LineItem>, k: nat)
    requires DistinctProducts(items) && k < |items|
    ensures SumFor(items, items[k].product) == items[k].quantity
  {
    var init := items[..|items| - 1];
    if k == |items| - 1 {
      SumForUnnamed(init, items[k].product);
    } else {
      SumForDistinct(init, k);
    }
  }

  /**
   * When the line items name distinct products, an order that passes validation leaves every
   * stock that was non-negative non-negative.
   */
  lemma DistinctItemsKeepStockNonNegative(products: map<Id, Product>, items: seq<LineItem>)
    requires forall id :: id in products ==> products[id].quantity >= 0
    requires DistinctProducts(items)
    requires FirstFailure(products, items) == None
    ensures forall id :: id in Debit(products, items) ==> Debit(products, items)[id].quantity >= 0
  {
    DebitTotals(products, items);
    NoFailureIffAllPass(products, items);
    forall id | id in products ensures products[id].quantity - SumFor(items, id) >= 0 {
      if k :| 0 <= k < |items| && items[k].product == id {
        SumForDistinct(items, k);
      } else {
        SumForUnnamed(items, id);
      }
    }
  }

  /**
   * A product listed twice is checked twice against its stock before either debit, so two lines
   * of `q` units each pass against a stock of at least `q` but less than `2q`, and the debit
   * drives that stock below zero.
   */
  lemma DuplicateItemsCanOversell(products: map<Id, Product>, id: Id, q: int)
    requires id in products && 0 < q <= products[id].quantity < 2 * q
    ensures FirstFailure(products, [LineItem(id, q), LineItem(id, q)]) == None
    ensures id in Debit(products, [LineItem(id, q), LineItem(id, q)])
    ensures Debit(products, [LineItem(id, q), LineItem(id, q)])[id].quantity < 0
  {
    var items := [LineItem(id, q), LineItem(id, q)];
    NoFailureIffAllPass(products, items);
    DebitTotals(products, items);
    var once := items[..1];
    assert once == [LineItem(id, q)] && once[..0] == [];
    assert SumFor(once, id) == q;
    assert items[..|items| - 1] == once;
    assert SumFor(items, id) == 2 * q;
  }

  /**
   * placeOrder (order.controller.js:8-33, 51): the buyer must exist, then every line item is
   * checked, then every line item is debited, then a pending order is recorded under `orderId`,
   * the id the store assigns. The notification and mail side effects are not modelled.
   */
  method PlaceOrder(db: Database, user: Id, items: seq<LineItem>, orderId: Id) returns (r: Result<Id>)
    requires orderId !in db.orders
    modifies db`products, db`orders
    ensures user !in old(db.users) ==> r == Err(NotFound)
    ensures user in old(db.users) && FirstFailure(old(db.products), items).Some? ==>
      r == Err(FirstFailure(old(db.products), items).value)
    ensures r.Ok? <==> user in old(db.users) && FirstFailure(old(db.products), items) == None
    ensures r.Err? ==> db.products == old(db.products) && db.orders == old(db.orders)
    ensures r.Ok? ==>
      (r.value == orderId
       && db.products == Debit(old(db.products), items)
       && db.orders == old(db.orders)[orderId := Order(user, items, Pending)])
  {
    if user !in db.users {
      return Err(NotFound);
    }
    var failure := CheckStock(db, items);
    if failure.Some? {
      return Err(failure.value);
    }
    var i := 0;
    while i < |items|
      invariant 0 <= i <= |items|
      invariant db.products == Debit(old(db.products), items[..i])
      invariant db.orders == old(db.orders)
    {
      var item := items[i];
      if item.product in db.products {
        var product := db.products[item.product];
        db.products := db.products[item.product := product.(quantity := product.quantity - item.quantity)];
      }
      assert items[..i + 1][..i] == items[..i];
      i := i + 1;
    }
    assert items[..|items|] == items;
    db.orders := db.orders[orderId := Order(user, items, Pending)];
    r := Ok(orderId);
  }

  /** The status names updateOrderStatus accepts (order.controller.js:137). */
  function StatusName(status: OrderStatus): string {
    match status
    case Pending => "pending"
    case Completed => "completed"
    case Cancelled => "cancelled"
  }

  /** The status a request names, or None when it is not one of the three statuses. */
  function ParseStatus(s: string): Option<OrderStatus> {
    if s == "pending" then Some(Pending)
    else if s == "completed" then Some(Completed)
    else if s == "cancelled" then Some(Cancelled)
    else None
  }

  /** A status name is accepted exactly when it is the name of a status, and parses back to that status. */
  lemma ParseStatusInverse(s: string, status: OrderStatus)
    ensures ParseStatus(StatusName(status)) == Some(status)
    ensures ParseStatus(s) == Some(status) <==> s == StatusName(status)
  {
  }

  /**
   * updateOrderStatus (order.controller.js:133-143): the status is validated before the order is
   * looked up; on success only the status field of that order changes. Notifications and mail
   * after the update are not modelled.
   */
  method UpdateOrderStatus(db: Database, orderId: Id, status: string) returns (r: Result<Order>)
    modifies db`orders
    ensures ParseStatus(status) == None ==> r == Err(InvalidInput)
    ensures ParseStatus(status).Some? && orderId !in old(db.orders) ==> r == Err(NotFound)
    ensures r.Err? ==> db.orders == old(db.orders)
    ensures ParseStatus(status).Some? && orderId in old(db.orders) ==>
      var updated := old(db.orders)[orderId].(status := ParseStatus(status).value);
      r == Ok(updated) && db.orders == old(db.orders)[orderId := updated]
  {
    var parsed := ParseStatus(status);
    if parsed.None? {
      return Err(InvalidInput);
    }
    if orderId !in db.orders {
      return Err(NotFound);
    }
    var updated := db.orders[orderId].(status := parsed.value);
    db.orders := db.orders[orderId := updated];
    r := Ok(updated);
  }
}

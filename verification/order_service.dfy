/** The backend order service: placing an order against the products table inside one
    transaction, changing an order's statuses, and listing a user's orders. */
module OrderLedger {
  import opened Wrappers
  import opened Text
  import opened Catalog
  import Seqs

  /** One requested line of an order. */
  datatype ItemRequest = ItemRequest(productId: int, quantity: int)

  /** The order placement body. */
  datatype OrderRequest = OrderRequest(userId: int, items: seq<ItemRequest>)

  /** A stored order; `orderDate` is the clock reading taken when it was placed and
      `totalAmount` is in cents. */
  datatype Order = Order(
    orderId: int,
    userId: int,
    status: string,
    paymentStatus: string,
    orderDate: int,
    totalAmount: int,
    items: seq<ItemRequest>)

  /** The backend's tables: the registered user ids, the products, the orders in
      repository order, and the next value of the orders' identity column. */
  datatype Ledger = Ledger(users: set<int>, catalog: ProductStore, orders: seq<Order>, nextOrderId: nat)

  const PlacedStatus := "PLACED"
  const PendingPayment := "PENDING"

  /** The reply to a successful placement. */
  function ConfirmationText(orderId: nat): string {
    "Order placed successfully! Order ID: " + NatToString(orderId)
  }

  /** Order ids are distinct and all below the next identity value, and the products
      table keeps its own invariant. */
  predicate LedgerInv(l: Ledger) {
    && l.nextOrderId >= 1
    && StoreInv(l.catalog)
    && (forall i :: 0 <= i < |l.orders| ==> 1 <= l.orders[i].orderId < l.nextOrderId)
    && (forall i, j :: 0 <= i < j < |l.orders| ==> l.orders[i].orderId != l.orders[j].orderId)
  }

  // ---------------------------------------------------------------- stock demand

  /** The total quantity `items` ask of product `pid`. */
  function Demand(items: seq<ItemRequest>, pid: int): int
    decreases |items|
  {
    if |items| == 0 then 0
    else (if items[0].productId == pid then items[0].quantity else 0) + Demand(items[1..], pid)
  }

  lemma {:induction false} DemandAppend(a: seq<ItemRequest>, b: seq<ItemRequest>, pid: int)
    ensures Demand(a + b, pid) == Demand(a, pid) + Demand(b, pid)
    decreases |a|
  {
    if |a| == 0 {
      assert a + b == b;
    } else {
      assert (a + b)[1..] == a[1..] + b;
      DemandAppend(a[1..], b, pid);
    }
  }

  lemma {:induction false} DemandNonNegative(items: seq<ItemRequest>, pid: int)
    requires forall k :: 0 <= k < |items| ==> items[k].quantity >= 1
    ensures Demand(items, pid) >= 0
    decreases |items|
  {
    if |items| > 0 {
      DemandNonNegative(items[1..], pid);
    }
  }

  /** Item `k` passes the service's checks when it is reached: its product exists and
      the stock left after the earlier items covers it, that is, the demand of the items
      up to and including `k` does not exceed the original stock. */
  predicate PassesAt(products: map<int, Product>, items: seq<ItemRequest>, k: int)
    requires 0 <= k < |items|
  {
    && items[k].productId in products
    && Demand(items[..k + 1], items[k].productId) <= products[items[k].productId].stockQuantity
  }

  /** Every item passes its checks. */
  predicate Feasible(products: map<int, Product>, items: seq<ItemRequest>) {
    forall k :: 0 <= k < |items| ==> PassesAt(products, items, k)
  }

  /** The value of the items at the products' prices (an unknown product counts 0). */
  function OrderValue(products: map<int, Product>, items: seq<ItemRequest>): int
    decreases |items|
  {
    if |items| == 0 then 0
    else
      (if items[0].productId in products then products[items[0].productId].price * items[0].quantity else 0)
      + OrderValue(products, items[1..])
  }

  lemma {:induction false} OrderValueSamePrices(p: map<int, Product>, q: map<int, Product>, items: seq<ItemRequest>)
    requires p.Keys == q.Keys
    requires forall id :: id in p ==> p[id].price == q[id].price
    ensures OrderValue(p, items) == OrderValue(q, items)
    decreases |items|
  {
    if |items| > 0 {
      OrderValueSamePrices(p, q, items[1..]);
    }
  }

  lemma {:induction false} OrderValueAppend(products: map<int, Product>, a: seq<ItemRequest>, b: seq<ItemRequest>)
    ensures OrderValue(products, a + b) == OrderValue(products, a) + OrderValue(products, b)
    decreases |a|
  {
    if |a| == 0 {
      assert a + b == b;
    } else {
      assert (a + b)[1..] == a[1..] + b;
      OrderValueAppend(products, a[1..], b);
    }
  }

  /** The products after `items` have taken their demand from the stock. */
  predicate Decremented(before: map<int, Product>, after: map<int, Product>, items: seq<ItemRequest>) {
    && after.Keys == before.Keys
    && forall id :: id in before ==>
         after[id] == before[id].(stockQuantity := before[id].stockQuantity - Demand(items, id))
  }

  /** The loop of `placeOrder`: for each item in turn, find the product (or fail), check
      its current stock (or fail), take the quantity from the stock and add price times
      quantity to the total. */
  function ApplyItems(products: map<int, Product>, items: seq<ItemRequest>): (r: Result<(map<int, Product>, int), string>)
    ensures r.Success? ==> forall k :: 0 <= k < |items| ==> items[k].productId in products
    ensures r.Success? ==> Decremented(products, r.value.0, items)
    ensures r.Success? ==> r.value.1 == OrderValue(products, items)
    decreases |items|
  {
    if |items| == 0 then Success((products, 0))
    else
      var it := items[0];
      if it.productId !in products then Failure("Product not found: " + IntToString(it.productId))
      else
        var p := products[it.productId];
        if p.stockQuantity < it.quantity then Failure("Insufficient stock for: " + p.name)
        else
          var taken := products[it.productId := p.(stockQuantity := p.stockQuantity - it.quantity)];
          match ApplyItems(taken, items[1..])
          case Failure(e) => Failure(e)
          case Success((after, total)) =>
            assert forall k :: 1 <= k < |items| ==> items[k] == items[1..][k - 1];
            OrderValueSamePrices(products, taken, items[1..]);
            Success((after, p.price * it.quantity + total))
  }

  /** The products after the first item's quantity is taken from its stock. */
  function TakeFirst(products: map<int, Product>, items: seq<ItemRequest>): map<int, Product>
    requires |items| > 0 && items[0].productId in products
  {
    var it := items[0];
    var p := products[it.productId];
    products[it.productId := p.(stockQuantity := p.stockQuantity - it.quantity)]
  }

  /** A later item's check against the original stock is its check against the stock
      reduced by the first item. */
  lemma PassesAtShift(products: map<int, Product>, items: seq<ItemRequest>, k: int)
    requires |items| > 0 && items[0].productId in products
    requires 1 <= k < |items|
    ensures PassesAt(products, items, k) <==> PassesAt(TakeFirst(products, items), items[1..], k - 1)
  {
    var it := items[0];
    var rest := items[1..];
    assert items[..k + 1] == [it] + rest[..k];
    assert ([it] + rest[..k])[1..] == rest[..k];
    assert rest[k - 1] == items[k];
  }

  /** Taking the first item's quantity from the stock turns the checks of the remaining
      items against the original stock into checks against the reduced stock. */
  lemma FeasibleStep(products: map<int, Product>, items: seq<ItemRequest>)
    requires |items| > 0 && items[0].productId in products
    ensures Feasible(products, items) <==>
      items[0].quantity <= products[items[0].productId].stockQuantity && Feasible(TakeFirst(products, items), items[1..])
  {
    var it := items[0];
    var p := products[it.productId];
    var taken := TakeFirst(products, items);
    var rest := items[1..];
    assert PassesAt(products, items, 0) <==> it.quantity <= p.stockQuantity by {
      assert items[..1] == [it];
      assert [it][1..] == [];
      assert Demand([it], it.productId) == it.quantity + Demand([], it.productId);
    }
    if Feasible(products, items) {
      forall k | 0 <= k < |rest| ensures PassesAt(taken, rest, k) {
        PassesAtShift(products, items, k + 1);
      }
    }
    if it.quantity <= p.stockQuantity && Feasible(taken, rest) {
      forall k | 0 <= k < |items| ensures PassesAt(products, items, k) {
        if k > 0 {
          PassesAtShift(products, items, k);
        }
      }
    }
  }

  /** The loop runs to completion exactly when every item passes its checks. */
  lemma {:induction false} ApplyItemsSucceedsIff(products: map<int, Product>, items: seq<ItemRequest>)
    ensures ApplyItems(products, items).Success? <==> Feasible(products, items)
    decreases |items|
  {
    if |items| > 0 {
      var it := items[0];
      if it.productId in products {
        FeasibleStep(products, items);
        ApplyItemsSucceedsIff(TakeFirst(products, items), items[1..]);
      } else {
        assert !PassesAt(products, items, 0);
      }
    }
  }

  /** The exception an item that fails its checks raises. */
  function FailureMessage(products: map<int, Product>, it: ItemRequest): string {
    if it.productId !in products then "Product not found: " + IntToString(it.productId)
    else "Insufficient stock for: " + products[it.productId].name
  }

  /** Item `k` is the first item that fails its checks. */
  predicate FirstFailure(products: map<int, Product>, items: seq<ItemRequest>, k: int) {
    && 0 <= k < |items|
    && Feasible(products, items[..k])
    && !PassesAt(products, items, k)
  }

  lemma FirstItemFails(products: map<int, Product>, items: seq<ItemRequest>)
    requires |items| > 0
    requires items[0].productId !in products || products[items[0].productId].stockQuantity < items[0].quantity
    ensures FirstFailure(products, items, 0)
  {
    var it := items[0];
    assert items[..1] == [it] && [it][1..] == [];
    assert Demand([it], it.productId) == it.quantity + Demand([], it.productId);
  }

  lemma FirstFailureShift(products: map<int, Product>, items: seq<ItemRequest>, k: int)
    requires |items| > 0 && items[0].productId in products
    requires items[0].quantity <= products[items[0].productId].stockQuantity
    requires FirstFailure(TakeFirst(products, items), items[1..], k)
    ensures FirstFailure(products, items, k + 1)
    ensures FailureMessage(TakeFirst(products, items), items[1..][k]) == FailureMessage(products, items[k + 1])
  {
    var taken := TakeFirst(products, items);
    var rest := items[1..];
    PassesAtShift(products, items, k + 1);
    var pre := items[..k + 1];
    assert pre[0] == items[0] && pre[1..] == rest[..k];
    FeasibleStep(products, pre);
    assert rest[k] == items[k + 1];
  }

  /** When the loop stops, it is at the first item that fails its checks, and the
      message names that item's product. */
  lemma {:induction false} ApplyItemsFailsAtFirstBadItem(products: map<int, Product>, items: seq<ItemRequest>) returns (k: int)
    requires ApplyItems(products, items).Failure?
    ensures FirstFailure(products, items, k)
    ensures ApplyItems(products, items).error == FailureMessage(products, items[k])
    decreases |items|
  {
    var it := items[0];
    if it.productId !in products || products[it.productId].stockQuantity < it.quantity {
      FirstItemFails(products, items);
      k := 0;
    } else {
      var j := ApplyItemsFailsAtFirstBadItem(TakeFirst(products, items), items[1..]);
      FirstFailureShift(products, items, j);
      k := j + 1;
    }
  }

  /** On success, no product an item names is left with negative stock. */
  lemma {:induction false} ApplyItemsKeepsStockNonNegative(products: map<int, Product>, items: seq<ItemRequest>)
    requires ApplyItems(products, items).Success?
    ensures forall k :: 0 <= k < |items| ==>
      ApplyItems(products, items).value.0[items[k].productId].stockQuantity >= 0
    decreases |items|
  {
    if |items| > 0 {
      var it := items[0];
      var p := products[it.productId];
      var taken := products[it.productId := p.(stockQuantity := p.stockQuantity - it.quantity)];
      var rest := items[1..];
      ApplyItemsKeepsStockNonNegative(taken, rest);
      var after := ApplyItems(products, items).value.0;
      assert after == ApplyItems(taken, rest).value.0;
      forall k | 0 <= k < |items| ensures after[items[k].productId].stockQuantity >= 0 {
        if k > 0 {
          assert items[k] == rest[k - 1];
        } else if exists j :: 0 <= j < |rest| && rest[j].productId == it.productId {
          var j :| 0 <= j < |rest| && rest[j].productId == it.productId;
          assert after[rest[j].productId].stockQuantity >= 0;
        } else {
          DemandAbsent(rest, it.productId);
        }
      }
    }
  }

  lemma {:induction false} DemandAbsent(items: seq<ItemRequest>, pid: int)
    requires forall j :: 0 <= j < |items| ==> items[j].productId != pid
    ensures Demand(items, pid) == 0
    decreases |items|
  {
    if |items| > 0 {
      DemandAbsent(items[1..], pid);
    }
  }

  // ---------------------------------------------------------------- placeOrder

  /** `placeOrder`, with the transaction made explicit: an unknown user, an unknown
      product or a shortfall anywhere leaves every table as it was; otherwise the stock
      of each product drops by the quantity requested of it, a new order with status
      PLACED, payment PENDING and the items' value as total is appended, and the reply
      names its id. */
  function PlaceOrder(l: Ledger, req: OrderRequest, now: int): (r: (Ledger, Result<string, string>))
    ensures r.1.Failure? ==> r.0 == l
    ensures req.userId !in l.users ==> r.1 == Failure("User not found!")
    ensures req.userId in l.users ==> (r.1.Success? <==> Feasible(l.catalog.products, req.items))
    ensures r.1.Success? ==>
      && r.1.value == ConfirmationText(l.nextOrderId)
      && r.0.orders == l.orders + [Order(l.nextOrderId, req.userId, PlacedStatus, PendingPayment, now,
                                         OrderValue(l.catalog.products, req.items), req.items)]
      && Decremented(l.catalog.products, r.0.catalog.products, req.items)
      && r.0.catalog.nextId == l.catalog.nextId
      && r.0.users == l.users
      && r.0.nextOrderId == l.nextOrderId + 1
    ensures LedgerInv(l) ==> LedgerInv(r.0)
  {
    if req.userId !in l.users then (l, Failure("User not found!"))
    else
      ApplyItemsSucceedsIff(l.catalog.products, req.items);
      match ApplyItems(l.catalog.products, req.items)
      case Failure(e) => (l, Failure(e))
      case Success((after, total)) =>
        var id := l.nextOrderId;
        var order := Order(id, req.userId, PlacedStatus, PendingPayment, now, total, req.items);
        (l.(catalog := l.catalog.(products := after), orders := l.orders + [order], nextOrderId := id + 1),
         Success(ConfirmationText(id)))
  }

  /** The bean constraints on a placement body: at least one item, and every quantity
      at least 1. */
  predicate ValidRequest(req: OrderRequest) {
    |req.items| > 0 && forall k :: 0 <= k < |req.items| ==> req.items[k].quantity >= 1
  }

  /** Every item's product exists and the whole order's demand for it fits the stock. */
  predicate WithinStock(products: map<int, Product>, items: seq<ItemRequest>) {
    forall k :: 0 <= k < |items| ==>
      items[k].productId in products && Demand(items, items[k].productId) <= products[items[k].productId].stockQuantity
  }

  lemma {:induction false} FeasibleBuildsUp(products: map<int, Product>, items: seq<ItemRequest>)
    requires Feasible(products, items)
    ensures WithinStock(products, items)
    decreases |items|
  {
    if |items| > 0 {
      var init := items[..|items| - 1];
      var last := items[|items| - 1];
      assert items == init + [last];
      assert Feasible(products, init) by {
        forall k | 0 <= k < |init| ensures PassesAt(products, init, k) {
          assert PassesAt(products, items, k);
          assert items[..k + 1] == init[..k + 1];
        }
      }
      FeasibleBuildsUp(products, init);
      assert items[..|items|] == items;
      assert PassesAt(products, items, |items| - 1);
      forall k | 0 <= k < |items|
        ensures items[k].productId in products
        ensures Demand(items, items[k].productId) <= products[items[k].productId].stockQuantity
      {
        var pid := items[k].productId;
        DemandAppend(init, [last], pid);
        assert [last][1..] == [];
        if pid != last.productId {
          assert k < |init| && init[k] == items[k];
        }
      }
    }
  }

  /** With the quantities the request constraints demand (each at least 1), the
      item-by-item checks against the stock as it shrinks succeed exactly when, for each
      product, the whole order's demand fits its original stock. */
  lemma PositiveQuantitiesFeasibility(products: map<int, Product>, items: seq<ItemRequest>)
    requires forall k :: 0 <= k < |items| ==> items[k].quantity >= 1
    ensures Feasible(products, items) <==> WithinStock(products, items)
  {
    if Feasible(products, items) {
      FeasibleBuildsUp(products, items);
    }
    if WithinStock(products, items) {
      forall k | 0 <= k < |items| ensures PassesAt(products, items, k) {
        var pid := items[k].productId;
        assert items == items[..k + 1] + items[k + 1..];
        DemandAppend(items[..k + 1], items[k + 1..], pid);
        DemandNonNegative(items[k + 1..], pid);
      }
    }
  }

  /** Duplicate lines share the stock: two lines of 2 against a stock of 3 fail, though
      each alone would fit. */
  lemma DuplicateItemsShareStock()
    ensures var products := map[7 := Product("Lamp", 2500, 3, "", "")];
            var items := [ItemRequest(7, 2), ItemRequest(7, 2)];
            && ApplyItems(products, items) == Failure("Insufficient stock for: Lamp")
            && ApplyItems(products, items[..1]).Success?
  {
    var products := map[7 := Product("Lamp", 2500, 3, "", "")];
    var items := [ItemRequest(7, 2), ItemRequest(7, 2)];
    var taken := map[7 := Product("Lamp", 2500, 1, "", "")];
    assert products[7 := products[7].(stockQuantity := 1)] == taken;
    assert items[1..] == [ItemRequest(7, 2)];
    assert "Insufficient stock for: " + "Lamp" == "Insufficient stock for: Lamp";
    assert ApplyItems(taken, items[1..]) == Failure("Insufficient stock for: Lamp");
    assert items[..1][1..] == [];
  }

  // ---------------------------------------------------------------- updateStatus

  function WithId(id: int): Order -> bool { (o: Order) => o.orderId == id }

  /** The order with each status overwritten only when a non-empty value is given. */
  function WithStatuses(o: Order, status: Option<string>, paymentStatus: Option<string>): (r: Order)
    ensures r.status == (if Present(status) then status.value else o.status)
    ensures r.paymentStatus == (if Present(paymentStatus) then paymentStatus.value else o.paymentStatus)
    ensures r == o.(status := r.status, paymentStatus := r.paymentStatus)
  {
    o.(status := if Present(status) then status.value else o.status,
       paymentStatus := if Present(paymentStatus) then paymentStatus.value else o.paymentStatus)
  }

  /** `updateStatus`: an unknown id throws and changes nothing; otherwise only that
      order's status and payment status change, each only when a non-empty value is
      given, and the saved order is returned. */
  function UpdateStatus(l: Ledger, orderId: int, status: Option<string>, paymentStatus: Option<string>): (r: (Ledger, Result<Order, string>))
    ensures (forall i :: 0 <= i < |l.orders| ==> l.orders[i].orderId != orderId) ==>
      r == (l, Failure("Order not found!"))
    ensures forall i :: 0 <= i < |l.orders| && l.orders[i].orderId == orderId &&
                        (forall j :: 0 <= j < i ==> l.orders[j].orderId != orderId) ==>
      && r.1 == Success(WithStatuses(l.orders[i], status, paymentStatus))
      && r.0 == l.(orders := l.orders[i := r.1.value])
    ensures LedgerInv(l) ==> LedgerInv(r.0)
  {
    var i := Seqs.FindIndex(l.orders, WithId(orderId));
    if i == -1 then (l, Failure("Order not found!"))
    else
      var updated := WithStatuses(l.orders[i], status, paymentStatus);
      (l.(orders := l.orders[i := updated]), Success(updated))
  }

  /** Repeating a status update changes nothing further. */
  lemma UpdateStatusIdempotent(l: Ledger, orderId: int, status: Option<string>, paymentStatus: Option<string>)
    ensures var once := UpdateStatus(l, orderId, status, paymentStatus);
            UpdateStatus(once.0, orderId, status, paymentStatus) == once
  {
    var once := UpdateStatus(l, orderId, status, paymentStatus);
    var i := Seqs.FindIndex(l.orders, WithId(orderId));
    if i != -1 {
      var u := WithStatuses(l.orders[i], status, paymentStatus);
      assert once == (l.(orders := l.orders[i := u]), Success(u));
      var again := once.0.orders;
      assert forall j :: 0 <= j < |l.orders| ==> again[j].orderId == l.orders[j].orderId;
      assert Seqs.FindIndex(again, WithId(orderId)) == i by {
        var k := Seqs.FindIndex(again, WithId(orderId));
        assert WithId(orderId)(again[i]);
        assert k != -1 && k <= i;
        assert !(k < i);
      }
      assert WithStatuses(u, status, paymentStatus) == u;
      assert again[i := u] == again;
    }
  }

  // ---------------------------------------------------------------- getOrdersByUser

  function PlacedBy(userId: int): Order -> bool {
    (o: Order) => o.userId == userId
  }

  /** `getOrdersByUser`: exactly the orders of that user, in repository order. */
  function OrdersByUser(l: Ledger, userId: int): (r: seq<Order>)
    ensures forall i :: 0 <= i < |r| ==> r[i].userId == userId
    ensures forall o :: o in l.orders && o.userId == userId ==> o in r
    ensures forall o :: o in r ==> o in l.orders
    ensures forall o :: multiset(r)[o] == if o.userId == userId then multiset(l.orders)[o] else 0
  {
    var r := Seqs.Filter(l.orders, PlacedBy(userId));
    assert forall o :: o in l.orders && o.userId == userId ==> multiset(r)[o] > 0;
    r
  }

  /** Listing distributes over the repository order: the orders of the first part come
      first. */
  lemma OrdersByUserAppend(l: Ledger, more: seq<Order>, userId: int)
    ensures OrdersByUser(l.(orders := l.orders + more), userId)
            == OrdersByUser(l, userId) + OrdersByUser(l.(orders := more), userId)
  {
    Seqs.FilterAppend(l.orders, more, PlacedBy(userId));
  }
}

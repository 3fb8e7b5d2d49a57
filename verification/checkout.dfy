/** Checkout from the customer dashboard: the request built from a submittable cart,
    the `/api/orders/place` endpoint that receives it (bean validation, then the
    transactional placement), and the dashboard's handling of the reply. */
module Checkout {
  import opened Wrappers
  import opened Text
  import opened Storefront
  import opened Cart
  import Confirmation
  import OrderLedger
  import Catalog

  /** One entry of the JSON body: the cart line's product id (absent for a product the
      server never saved) and its quantity. */
  datatype RequestItem = RequestItem(productId: Option<int>, quantity: int)

  /** The JSON body of a placement: the session user's id (absent when the session
      holds none), the client's clock as an ISO string, and one item per cart line. */
  datatype PlacementRequest = PlacementRequest(userId: Option<int>, orderDate: string, items: seq<RequestItem>)

  /** The outcome of the endpoint: the confirmation text, or the HTTP status of the
      failure (400 for a body the bean constraints reject, 500 for an exception thrown
      by the service). */
  datatype Status = BadRequest | InternalError

  /** The items of the body, one per cart line in cart order, carrying the line's
      product id and quantity and dropping its message. */
  function RequestItems(cart: seq<CartLine>): (r: seq<RequestItem>)
    ensures |r| == |cart|
    ensures forall i :: 0 <= i < |cart| ==>
      r[i].productId == cart[i].product.productId && r[i].quantity == cart[i].quantity
  {
    seq(|cart|, i requires 0 <= i < |cart| => RequestItem(cart[i].product.productId, cart[i].quantity))
  }

  /** The body `placeOrder` posts for the dashboard's cart. */
  function RequestFor(d: Dashboard, userId: Option<int>, now: string): PlacementRequest {
    PlacementRequest(userId, now, RequestItems(d.cart))
  }

  /** The text shown as the order number: the digits `extractOrderId` captures when
      there are any, and "Pending" otherwise. */
  function ShownOrderId(response: string): (r: string)
    ensures r == "Pending" <==> forall i, k, e :: !Confirmation.RegexMatch(response, i, k, e)
    ensures Confirmation.ExtractOrderId(response).Some? ==> r == Confirmation.ExtractOrderId(response).value
    ensures r != "Pending" ==> 1 <= |r| && AllDigits(r)
  {
    match Confirmation.ExtractOrderId(response)
    case Some(id) =>
      assert id[0] != 'P' by { assert IsDigit(id[0]); }
      id
    case None => "Pending"
  }

  /** The sending step of `placeOrder`. A cart that is not submittable sends nothing.
      Otherwise the body is posted: the user id, the clock, and one item per cart line
      in cart order. Sending changes no state: there is no in-flight flag. */
  function SubmitOrder(d: Dashboard, userId: Option<int>, now: string): (r: (Dashboard, Option<PlacementRequest>))
    ensures r.0 == d
    ensures r.1.Some? <==> IsCartValid(d.cart)
    ensures r.1.Some? ==>
      && r.1.value.userId == userId && r.1.value.orderDate == now
      && |r.1.value.items| == |d.cart|
      && (forall i :: 0 <= i < |d.cart| ==>
            r.1.value.items[i] == RequestItem(d.cart[i].product.productId, d.cart[i].quantity))
  {
    if IsCartValid(d.cart) then (d, Some(RequestFor(d, userId, now))) else (d, None)
  }

  /** The success handler of `placeOrder`, on the state current when the reply
      arrives: whatever the cart holds then is emptied in memory and in storage, and the
      orders section is shown with the payment dialog open on the order number read
      from the reply. The error handler changes nothing. */
  function OrderPlaced(d: Dashboard, response: string): (r: Dashboard)
    ensures r.cart == [] && r.stored == Some([])
    ensures r.section == "orders" && r.showPaymentModal
    ensures r.lastOrderId == ShownOrderId(response)
  {
    var cleared := SaveCart(d.(cart := []));
    cleared.(section := "orders", lastOrderId := ShownOrderId(response), showPaymentModal := true)
  }

  /** `placeOrder` when nothing else happens before the reply: the sending step, then
      the handler of `reply`. */
  function PlaceOrder(d: Dashboard, userId: Option<int>, now: string, reply: Reply<string>): (r: (Dashboard, Option<PlacementRequest>))
    ensures !IsCartValid(d.cart) ==> r == (d, None)
    ensures IsCartValid(d.cart) ==>
      && r.1.Some?
      && r.1.value.userId == userId && r.1.value.orderDate == now
      && |r.1.value.items| == |d.cart|
      && (forall i :: 0 <= i < |d.cart| ==>
            r.1.value.items[i] == RequestItem(d.cart[i].product.productId, d.cart[i].quantity))
    ensures IsCartValid(d.cart) && reply.Succeeded? ==>
      && r.0.cart == [] && r.0.stored == Some([])
      && r.0.section == "orders" && r.0.showPaymentModal
      && r.0.lastOrderId == ShownOrderId(reply.value)
      && (r.0.lastOrderId == "Pending" <==> forall i, k, e :: !Confirmation.RegexMatch(reply.value, i, k, e))
    ensures reply.Failed? ==> r.0 == d
  {
    var (sent, request) := SubmitOrder(d, userId, now);
    if request.None? then (sent, None)
    else
      match reply
      case Succeeded(response) => (OrderPlaced(sent, response), request)
      case Failed(_) => (sent, request)
  }

  /** With no in-flight flag, a second click before the reply posts the same order
      again. */
  lemma DoubleSubmitSendsTwice(d: Dashboard, userId: Option<int>, now: string)
    requires IsCartValid(d.cart)
    ensures var first := SubmitOrder(d, userId, now);
      first.1.Some? && SubmitOrder(first.0, userId, now).1 == first.1
  {
  }

  /** A product added to the cart while a placement is in flight is not part of the
      order, yet the success handler empties the cart and its stored copy: the line is
      lost. */
  lemma AddDuringPlacementDiscarded(d: Dashboard, userId: Option<int>, now: string, p: Product, response: string)
    requires IsCartValid(d.cart) && !HasLine(d.cart, p.productId)
    ensures
      var (sent, request) := SubmitOrder(d, userId, now);
      var during := AddToCart(sent, p).0;
      var after := OrderPlaced(during, response);
      && HasLine(during.cart, p.productId)
      && (forall k :: 0 <= k < |request.value.items| ==> request.value.items[k].productId != p.productId)
      && after.cart == [] && after.stored == Some([])
  {
    var during := AddToCart(d, p).0;
    assert during.cart[|d.cart|].product.productId == p.productId;
  }

  /** `closePaymentModal`: hides the dialog and nothing else. */
  function ClosePaymentModal(d: Dashboard): (r: Dashboard)
    ensures !r.showPaymentModal && r.cart == d.cart && r.stored == d.stored
    ensures r.section == d.section && r.lastOrderId == d.lastOrderId
  {
    d.(showPaymentModal := false)
  }

  // ---------------------------------------------------------------- the endpoint

  /** The body as the service sees it, when the bean constraints hold: a user id, at
      least one item, and on each item a product id and a quantity of at least 1. The
      client's `orderDate` has no field in the request type and is dropped. */
  function Bind(req: PlacementRequest): (r: Option<OrderLedger.OrderRequest>)
    ensures r.Some? <==>
      && req.userId.Some? && |req.items| > 0
      && forall k :: 0 <= k < |req.items| ==> req.items[k].productId.Some? && req.items[k].quantity >= 1
    ensures r.Some? ==> OrderLedger.ValidRequest(r.value)
    ensures r.Some? ==>
      && r.value.userId == req.userId.value && |r.value.items| == |req.items|
      && forall k :: 0 <= k < |req.items| ==>
           r.value.items[k] == OrderLedger.ItemRequest(req.items[k].productId.value, req.items[k].quantity)
  {
    if && req.userId.Some? && |req.items| > 0
       && forall k :: 0 <= k < |req.items| ==> req.items[k].productId.Some? && req.items[k].quantity >= 1
    then
      Some(OrderLedger.OrderRequest(req.userId.value,
        seq(|req.items|, k requires 0 <= k < |req.items| =>
          OrderLedger.ItemRequest(req.items[k].productId.value, req.items[k].quantity))))
    else None
  }

  /** `POST /api/orders/place`: a body the bean constraints reject is answered 400
      without touching the ledger; otherwise the service places the order, and an
      exception it throws (after rolling back) is answered 500. */
  function Place(l: OrderLedger.Ledger, req: PlacementRequest, now: int): (r: (OrderLedger.Ledger, Result<string, Status>))
    ensures Bind(req).None? ==> r == (l, Failure(BadRequest))
    ensures r.1.Failure? ==> r.0 == l
    ensures Bind(req).Some? ==>
      (r.1.Success? <==> OrderLedger.PlaceOrder(l, Bind(req).value, now).1.Success?)
    ensures r.1.Success? ==> r.1.value == OrderLedger.ConfirmationText(l.nextOrderId)
  {
    match Bind(req)
    case None => (l, Failure(BadRequest))
    case Some(body) =>
      var (after, result) := OrderLedger.PlaceOrder(l, body, now);
      match result
      case Success(text) => (after, Success(text))
      case Failure(_) => (after, Failure(InternalError))
  }

  /** What the dashboard's subscriber receives for an endpoint outcome; the error
      object of a failure is not inspected and is left as a parameter. */
  function Delivered(result: Result<string, Status>, err: HttpError): Reply<string> {
    match result
    case Success(text) => Succeeded(text)
    case Failure(_) => Failed(err)
  }

  // ---------------------------------------------------------------- properties

  /** The backend's confirmation yields exactly the new order's id as the number shown
      in the payment dialog. */
  lemma ConfirmationShowsOrderId(n: nat)
    ensures ShownOrderId(OrderLedger.ConfirmationText(n)) == NatToString(n)
  {
    var prefix := "Order placed successfully! Order ";
    assert OrderLedger.ConfirmationText(n) == Confirmation.MarkedMessage(prefix, n);
    Confirmation.ExtractAfterMarker(prefix, n);
  }

  /** A submittable cart whose lines all carry saved product ids always passes the
      bean constraints once the session has a user id: the request is rejected by the
      server only for stock or existence reasons, never for its shape. */
  lemma SubmittableCartBinds(d: Dashboard, uid: int, now: string)
    requires IsCartValid(d.cart)
    requires forall i :: 0 <= i < |d.cart| ==> d.cart[i].product.productId.Some?
    ensures Bind(RequestFor(d, Some(uid), now)).Some?
  {
  }

  /** Without a user id in the session the body is always rejected. */
  lemma MissingUserRejected(d: Dashboard, now: string)
    ensures Bind(RequestFor(d, None, now)).None?
  {
  }

  /** The items the service receives for a cart whose lines all carry product ids. */
  function LedgerItems(cart: seq<CartLine>): (r: seq<OrderLedger.ItemRequest>)
    requires forall i :: 0 <= i < |cart| ==> cart[i].product.productId.Some?
    ensures |r| == |cart|
    ensures forall i :: 0 <= i < |cart| ==>
      r[i] == OrderLedger.ItemRequest(cart[i].product.productId.value, cart[i].quantity)
  {
    seq(|cart|, i requires 0 <= i < |cart| => OrderLedger.ItemRequest(cart[i].product.productId.value, cart[i].quantity))
  }

  /** Every line's product is in the catalog at the price the line's snapshot shows. */
  predicate PricesAgree(products: map<int, Catalog.Product>, cart: seq<CartLine>)
    requires forall i :: 0 <= i < |cart| ==> cart[i].product.productId.Some?
  {
    forall i :: 0 <= i < |cart| ==>
      cart[i].product.productId.value in products && products[cart[i].product.productId.value].price == cart[i].product.price
  }

  /** When the catalog prices agree with the cart's snapshots, the total the server
      records is the total the cart displayed. */
  lemma {:induction false} ServerTotalMatchesCart(products: map<int, Catalog.Product>, cart: seq<CartLine>)
    requires forall i :: 0 <= i < |cart| ==> cart[i].product.productId.Some?
    requires PricesAgree(products, cart)
    ensures OrderLedger.OrderValue(products, LedgerItems(cart)) == Sum(cart)
    decreases |cart|
  {
    if |cart| > 0 {
      var init := cart[..|cart| - 1];
      var last := cart[|cart| - 1];
      assert PricesAgree(products, init) by {
        forall i | 0 <= i < |init| ensures init[i] == cart[i] { }
      }
      ServerTotalMatchesCart(products, init);
      assert LedgerItems(cart) == LedgerItems(init) + LedgerItems([last]);
      OrderLedger.OrderValueAppend(products, LedgerItems(init), LedgerItems([last]));
      assert LedgerItems([last])[1..] == [];
    }
  }

  /** Checkout end to end, for a submittable cart of saved products and a logged-in
      user: the server accepts the order exactly when the user exists and every
      product's total demand fits its stock. On acceptance the dashboard empties the
      cart and shows the new order's id, and the recorded total is the cart's total
      when the prices agree; on refusal neither side changes. */
  lemma CheckoutEndToEnd(d: Dashboard, l: OrderLedger.Ledger, uid: int, date: string, now: int, err: HttpError)
    requires IsCartValid(d.cart)
    requires forall i :: 0 <= i < |d.cart| ==> d.cart[i].product.productId.Some?
    ensures
      var req := RequestFor(d, Some(uid), date);
      var (after, result) := Place(l, req, now);
      var (shown, sent) := PlaceOrder(d, Some(uid), date, Delivered(result, err));
      && sent == Some(req)
      && (result.Success? <==>
            uid in l.users && OrderLedger.WithinStock(l.catalog.products, LedgerItems(d.cart)))
      && (result.Success? ==>
            && shown.cart == [] && shown.stored == Some([]) && shown.showPaymentModal
            && shown.lastOrderId == NatToString(l.nextOrderId)
            && after.orders[|l.orders|].orderId == l.nextOrderId
            && (PricesAgree(l.catalog.products, d.cart) ==> after.orders[|l.orders|].totalAmount == Sum(d.cart)))
      && (result.Failure? ==> shown == d && after == l)
  {
    var req := RequestFor(d, Some(uid), date);
    SubmittableCartBinds(d, uid, date);
    var body := Bind(req).value;
    assert body.items == LedgerItems(d.cart);
    assert body == OrderLedger.OrderRequest(uid, LedgerItems(d.cart));
    OrderLedger.PositiveQuantitiesFeasibility(l.catalog.products, body.items);
    var (after, result) := Place(l, req, now);
    if result.Success? {
      ConfirmationShowsOrderId(l.nextOrderId);
      if PricesAgree(l.catalog.products, d.cart) {
        ServerTotalMatchesCart(l.catalog.products, d.cart);
      }
    }
  }
}

/** The administrator's dashboard: the product roster with its edit, add and delete
    flows, and the cached order list with its status changes. `saveEdit` and
    `saveNewProduct` read the form when they send, so the step that sends and the
    handlers of the reply are separate functions. The delete and status actions change
    no state when they send, and their handlers read only their arguments and the
    state current when the reply arrives: each is one function applied to that state.
    Replies, and the answers to confirmation dialogs, are inputs. */
module AdminDashboard {
  import opened Wrappers
  import opened Storefront
  import Seqs
  import StatusQuery

  /** The dashboard's state. `alert` is the text of the last alert raised, None when
      none has been. */
  datatype AdminState = AdminState(
    section: string,
    products: seq<Product>,
    orders: seq<Order>,
    editingProductId: Option<int>,
    editedProduct: Product,
    newProduct: Product,
    adding: bool,
    saving: bool,
    alert: Option<string>)

  const InvalidIdMessage := "Cannot edit this product (Invalid ID). Please refresh the page to clean up."
  const RequiredMessage := "Name and Price are required!"
  const UpdatedMessage := "Product Updated Successfully!"
  const AddedMessage := "Product Added Successfully!"
  const OrderStatusMessage := "Order Status Updated!"
  const PaymentStatusMessage := "Payment Status Updated!"

  /** The state a freshly opened dashboard starts in. */
  const Initial := AdminState("welcome", [], [], None, BlankProduct, BlankProduct, false, false, None)

  /** A product id the dashboard treats as real: present and positive. */
  predicate SavedId(id: Option<int>) { id.Some? && id.value > 0 }

  function IsListable(): Product -> bool { (p: Product) => SavedId(p.productId) }

  function HasId(id: Option<int>): Product -> bool { (p: Product) => p.productId == id }

  function LacksId(id: int): Product -> bool { (p: Product) => p.productId != Some(id) }

  function HasOrderId(id: int): Order -> bool { (o: Order) => o.orderId == id }

  /** How JavaScript renders `err.message` when concatenated into an alert. */
  function MessageText(m: Option<string>): string { m.GetOr("undefined") }

  // ---------------------------------------------------------------- loadProducts

  /** `loadProducts`: the fetched list with every product lacking a positive id
      dropped, in the fetched order. */
  function LoadProducts(s: AdminState, fetched: seq<Product>): (r: AdminState)
    ensures forall i :: 0 <= i < |r.products| ==> SavedId(r.products[i].productId)
    ensures forall p :: p in fetched && SavedId(p.productId) <==> p in r.products
    ensures forall p :: multiset(r.products)[p] == if SavedId(p.productId) then multiset(fetched)[p] else 0
    ensures r == s.(products := r.products)
  {
    var kept := Seqs.Filter(fetched, IsListable());
    assert forall p :: p in fetched && SavedId(p.productId) ==> multiset(kept)[p] > 0;
    s.(products := kept)
  }

  /** Loading a list whose ids are all positive keeps it exactly. */
  lemma LoadKeepsSavedProducts(s: AdminState, fetched: seq<Product>)
    requires forall i :: 0 <= i < |fetched| ==> SavedId(fetched[i].productId)
    ensures LoadProducts(s, fetched).products == fetched
  {
    Seqs.FilterKeepsAll(fetched, IsListable());
  }

  /** Loading distributes over the fetched order: the survivors of a prefix come
      before the survivors of the rest. */
  lemma LoadPreservesOrder(s: AdminState, a: seq<Product>, b: seq<Product>)
    ensures LoadProducts(s, a + b).products == LoadProducts(s, a).products + LoadProducts(s, b).products
  {
    Seqs.FilterAppend(a, b, IsListable());
  }

  // ---------------------------------------------------------------- edit flow

  /** `startEdit`: refused, with an alert and nothing else changed, for a product with
      no id or id 0; otherwise the product becomes the one being edited and the form
      holds a copy of it. A negative id is not refused here. */
  function StartEdit(s: AdminState, p: Product): (r: AdminState)
    ensures p.productId.None? || p.productId == Some(0) ==> r == s.(alert := Some(InvalidIdMessage))
    ensures p.productId.Some? && p.productId.value != 0 ==>
      r == s.(editingProductId := p.productId, editedProduct := p)
  {
    if p.productId.None? || p.productId.value == 0 then s.(alert := Some(InvalidIdMessage))
    else s.(editingProductId := p.productId, editedProduct := p)
  }

  /** Every product the roster shows after a load can be opened for editing. */
  lemma LoadedProductsEditable(s: AdminState, fetched: seq<Product>, i: int)
    requires 0 <= i < |LoadProducts(s, fetched).products|
    ensures var t := LoadProducts(s, fetched);
      StartEdit(t, t.products[i]).editingProductId == t.products[i].productId
  {
  }

  /** `saveEdit`: while a save is in flight, nothing happens and no request is sent;
      otherwise the flag is raised and the form's current product is sent. */
  function SaveEdit(s: AdminState): (r: (AdminState, Option<Product>))
    ensures s.saving ==> r == (s, None)
    ensures !s.saving ==> r.0 == s.(saving := true) && r.1 == Some(s.editedProduct)
  {
    if s.saving then (s, None) else (s.(saving := true), Some(s.editedProduct))
  }

  /** The success handler of `saveEdit`: the first product with the captured product's
      id is replaced by the captured copy (no product is appended when none matches),
      the form is reset and the flag cleared. */
  function SaveEditSucceeded(s: AdminState, captured: Product): (r: AdminState)
    ensures |r.products| == |s.products|
    ensures forall i :: 0 <= i < |s.products| ==>
      r.products[i] == if s.products[i].productId == captured.productId
                         && forall j :: 0 <= j < i ==> s.products[j].productId != captured.productId
                       then captured else s.products[i]
    ensures !r.saving && r.editingProductId.None? && r.editedProduct == BlankProduct
    ensures r.alert == Some(UpdatedMessage)
    ensures r.orders == s.orders && r.newProduct == s.newProduct && r.adding == s.adding && r.section == s.section
  {
    var index := Seqs.FindIndex(s.products, HasId(captured.productId));
    var products := if index != -1 then s.products[index := captured] else s.products;
    s.(products := products, saving := false, editedProduct := BlankProduct, editingProductId := None,
       alert := Some(UpdatedMessage))
  }

  /** The message the update and status handlers build from a failed call: a non-empty
      string payload, else an object payload's JSON text, else the transport message
      when non-empty, else "Server did not respond". */
  function UpdateFailureMessage(err: HttpError): (msg: string)
    ensures err.error.TextPayload? && err.error.text != "" ==> msg == err.error.text
    ensures err.error.ObjectPayload? ==> msg == err.error.json
    ensures (err.error.NoPayload? || err.error.OtherPayload? || err.error == TextPayload("")) ==>
      msg == if err.message.Some? && err.message.value != "" then err.message.value else "Server did not respond"
  {
    if err.error.TextPayload? && err.error.text != "" then err.error.text
    else if err.error.ObjectPayload? then err.error.json
    else if err.message.Some? && err.message.value != "" then err.message.value
    else "Server did not respond"
  }

  /** The error handler of `saveEdit`: the flag is cleared and the failure reported;
      the roster and the form are kept. */
  function SaveEditFailed(s: AdminState, err: HttpError): (r: AdminState)
    ensures r.products == s.products && r.editedProduct == s.editedProduct && r.editingProductId == s.editingProductId
    ensures !r.saving && r.alert == Some("Failed to update: " + UpdateFailureMessage(err))
  {
    s.(saving := false, alert := Some("Failed to update: " + UpdateFailureMessage(err)))
  }

  /** `cancelEdit`: leaves edit mode, resets the form and clears the flag. */
  function CancelEdit(s: AdminState): (r: AdminState)
    ensures r.editingProductId.None? && r.editedProduct == BlankProduct && !r.saving
    ensures r == s.(editingProductId := r.editingProductId, editedProduct := r.editedProduct, saving := r.saving)
  {
    s.(editingProductId := None, editedProduct := BlankProduct, saving := false)
  }

  /** Two clicks on "save" before the reply arrives send one request: the second is
      ignored and leaves the state as the first left it. */
  lemma DoubleSaveSendsOnce(s: AdminState)
    requires !s.saving
    ensures SaveEdit(s).1.Some?
    ensures SaveEdit(SaveEdit(s).0) == (SaveEdit(s).0, None)
  {
  }

  /** Each way a save ends (success, failure, cancel) re-enables saving. */
  lemma SaveEndsReenable(s: AdminState, captured: Product, err: HttpError)
    ensures SaveEdit(SaveEditSucceeded(s, captured)).1.Some?
    ensures SaveEdit(SaveEditFailed(s, err)).1.Some?
    ensures SaveEdit(CancelEdit(s)).1.Some?
  {
  }

  /** The product ids shown, in order. */
  function Ids(products: seq<Product>): (ids: seq<Option<int>>)
    ensures |ids| == |products|
    ensures forall i :: 0 <= i < |products| ==> ids[i] == products[i].productId
  {
    seq(|products|, i requires 0 <= i < |products| => products[i].productId)
  }

  /** A successful edit never changes which ids the roster shows, nor their order;
      and when the edited product is listed, its new copy is. */
  lemma SaveEditKeepsRoster(s: AdminState, captured: Product)
    ensures Ids(SaveEditSucceeded(s, captured).products) == Ids(s.products)
    ensures captured.productId in Ids(s.products) ==> captured in SaveEditSucceeded(s, captured).products
  {
    var r := SaveEditSucceeded(s, captured).products;
    if captured.productId in Ids(s.products) {
      var index := Seqs.FindIndex(s.products, HasId(captured.productId));
      var k :| 0 <= k < |s.products| && Ids(s.products)[k] == captured.productId;
      assert HasId(captured.productId)(s.products[k]);
      assert r[index] == captured;
    }
  }

  // ---------------------------------------------------------------- deleteProduct

  /** `deleteProduct`: nothing is sent unless the dialog is confirmed. On success every
      product with that id is dropped and the rest keep their order; on failure the
      roster is kept and the transport message reported. The second component tells
      whether a request was sent. */
  function DeleteProduct(s: AdminState, id: int, confirmed: bool, reply: Reply<()>): (r: (AdminState, bool))
    ensures !confirmed ==> r == (s, false)
    ensures confirmed ==> r.1
    ensures confirmed && reply.Succeeded? ==>
      && (forall i :: 0 <= i < |r.0.products| ==> r.0.products[i].productId != Some(id))
      && (forall p :: multiset(r.0.products)[p] == if p.productId == Some(id) then 0 else multiset(s.products)[p])
      && r.0 == s.(products := r.0.products)
    ensures confirmed && reply.Failed? ==>
      r.0 == s.(alert := Some("Failed to delete product: " + MessageText(reply.err.message)))
  {
    if !confirmed then (s, false)
    else
      match reply
      case Succeeded(_) => (s.(products := Seqs.Filter(s.products, LacksId(id))), true)
      case Failed(err) => (s.(alert := Some("Failed to delete product: " + MessageText(err.message))), true)
  }

  /** The roster a successful delete of `id` leaves when the roster was `products`. */
  function AfterDelete(s: AdminState, products: seq<Product>, id: int): seq<Product> {
    DeleteProduct(s.(products := products), id, true, Succeeded(())).0.products
  }

  /** A delete keeps the survivors in their order: it works element by element, keeping
      each product without the id and dropping each one with it, and distributes over
      concatenation. Together these fix the result, not only its multiset. */
  lemma DeleteKeepsOrder(s: AdminState, a: seq<Product>, b: seq<Product>, p: Product, id: int)
    ensures AfterDelete(s, a + b, id) == AfterDelete(s, a, id) + AfterDelete(s, b, id)
    ensures AfterDelete(s, [p], id) == if p.productId == Some(id) then [] else [p]
  {
    assert AfterDelete(s, a + b, id) == Seqs.Filter(a + b, LacksId(id));
    assert AfterDelete(s, a, id) == Seqs.Filter(a, LacksId(id));
    assert AfterDelete(s, b, id) == Seqs.Filter(b, LacksId(id));
    Seqs.FilterAppend(a, b, LacksId(id));
    assert AfterDelete(s, [p], id) == Seqs.Filter([p], LacksId(id));
    assert [p][1..] == [];
  }

  /** Deleting an id no product has leaves the roster as it was. */
  lemma DeleteAbsentKeepsRoster(s: AdminState, id: int)
    requires Some(id) !in Ids(s.products)
    ensures DeleteProduct(s, id, true, Succeeded(())).0.products == s.products
  {
    assert forall i :: 0 <= i < |s.products| ==> Ids(s.products)[i] == s.products[i].productId;
    Seqs.FilterKeepsAll(s.products, LacksId(id));
  }

  // ---------------------------------------------------------------- saveNewProduct

  /** `toggleAdd`: opens or closes the add form. */
  function ToggleAdd(s: AdminState): (r: AdminState)
    ensures r.adding != s.adding && r == s.(adding := r.adding)
  {
    s.(adding := !s.adding)
  }

  /** The message the add handler builds from a failed call: any string payload, even
      an empty one, else an object payload's JSON text, else the transport message as
      JavaScript renders it. */
  function AddFailureMessage(err: HttpError): (msg: string)
    ensures err.error.TextPayload? ==> msg == err.error.text
    ensures err.error.ObjectPayload? ==> msg == err.error.json
    ensures err.error.NoPayload? || err.error.OtherPayload? ==> msg == MessageText(err.message)
  {
    match err.error
    case TextPayload(t) => t
    case ObjectPayload(json) => json
    case _ => MessageText(err.message)
  }

  /** The two handlers' messages agree except on an empty string payload (which only
      the add handler reports as is) and on a missing or empty transport message
      (where they fall back differently). */
  lemma FailureMessagesAgree(err: HttpError)
    requires err.error != TextPayload("")
    requires err.message.Some? && err.message.value != ""
    ensures UpdateFailureMessage(err) == AddFailureMessage(err)
  {
  }

  lemma FailureMessagesDifferOnEmptyText()
    ensures var err := HttpError(TextPayload(""), Some("Http failure response"));
      UpdateFailureMessage(err) == "Http failure response" && AddFailureMessage(err) == ""
  {
  }

  /** The sending step of `saveNewProduct`: a form with an empty name or a zero price
      is refused with an alert and nothing is sent; otherwise the form's product is
      sent and nothing else changes (there is no in-flight flag). */
  function SubmitNewProduct(s: AdminState): (r: (AdminState, Option<Product>))
    ensures s.newProduct.name == "" || s.newProduct.price == 0 <==> r.1.None?
    ensures r.1.None? ==> r.0 == s.(alert := Some(RequiredMessage))
    ensures r.1.Some? ==> r.1.value == s.newProduct && r.0 == s
  {
    if s.newProduct.name == "" || s.newProduct.price == 0 then (s.(alert := Some(RequiredMessage)), None)
    else (s, Some(s.newProduct))
  }

  /** The success handler of `saveNewProduct`, on the state current when the reply
      arrives: the product the server returns is appended, and the form is closed and
      reset. */
  function NewProductSaved(s: AdminState, saved: Product): (r: AdminState)
    ensures r.products == s.products + [saved]
    ensures !r.adding && r.newProduct == BlankProduct && r.alert == Some(AddedMessage)
    ensures r == s.(products := r.products, adding := r.adding, newProduct := r.newProduct, alert := r.alert)
  {
    s.(products := s.products + [saved], adding := false, newProduct := BlankProduct, alert := Some(AddedMessage))
  }

  /** The error handler of `saveNewProduct`: the form stays open with its contents and
      the failure is reported. */
  function NewProductFailed(s: AdminState, err: HttpError): (r: AdminState)
    ensures r == s.(alert := Some("Failed to add product: " + AddFailureMessage(err)))
  {
    s.(alert := Some("Failed to add product: " + AddFailureMessage(err)))
  }

  /** `saveNewProduct` when nothing else happens before the reply: the sending step,
      then the handler of `reply`. */
  function SaveNewProduct(s: AdminState, reply: Reply<Product>): (r: (AdminState, Option<Product>))
    ensures s.newProduct.name == "" || s.newProduct.price == 0 <==> r.1.None?
    ensures r.1.None? ==> r.0 == s.(alert := Some(RequiredMessage))
    ensures r.1.Some? ==> r.1.value == s.newProduct
    ensures r.1.Some? && reply.Succeeded? ==>
      r.0 == s.(products := s.products + [reply.value], adding := false, newProduct := BlankProduct,
                alert := Some(AddedMessage))
    ensures r.1.Some? && reply.Failed? ==>
      r.0 == s.(alert := Some("Failed to add product: " + AddFailureMessage(reply.err)))
  {
    var (sent, request) := SubmitNewProduct(s);
    if request.None? then (sent, None)
    else
      match reply
      case Succeeded(saved) => (NewProductSaved(sent, saved), request)
      case Failed(err) => (NewProductFailed(sent, err), request)
  }

  /** After a successful add the form is blank, so clicking "save" again at once is
      refused and sends nothing: the same product is not added twice. */
  lemma ResubmitAfterAddRefused(s: AdminState, saved: Product)
    ensures var t := NewProductSaved(s, saved);
      SubmitNewProduct(t).1.None? && SubmitNewProduct(t).0.products == s.products + [saved]
  {
  }

  // ---------------------------------------------------------------- order statuses

  /** The order list with the first order of id `id` passed through `change`; the
      list is unchanged when no order has that id. */
  function ChangeFirstOrder(orders: seq<Order>, id: int, change: Order -> Order): (r: seq<Order>)
    ensures |r| == |orders|
    ensures forall i :: 0 <= i < |orders| ==>
      r[i] == if orders[i].orderId == id && forall j :: 0 <= j < i ==> orders[j].orderId != id
              then change(orders[i]) else orders[i]
  {
    var index := Seqs.FindIndex(orders, HasOrderId(id));
    if index != -1 then orders[index := change(orders[index])] else orders
  }

  function SetStatus(status: string): Order -> Order { (o: Order) => o.(status := status) }

  function SetPaymentStatus(status: string): Order -> Order { (o: Order) => o.(paymentStatus := status) }

  /** `updateOrderStatus`: nothing is sent unless the dialog is confirmed; otherwise
      the update URL carries only the status. On success the first cached order with
      that id gets the new status, every other order and field staying as it was; on failure
      the list is kept and the transport message reported. The second component is the
      URL requested, if any. */
  function UpdateOrderStatus(s: AdminState, order: Order, status: string, confirmed: bool, reply: Reply<()>): (r: (AdminState, Option<string>))
    ensures !confirmed ==> r == (s, None)
    ensures confirmed ==> r.1 == Some(StatusQuery.UpdateUrl(order.orderId, Some(status), None))
    ensures confirmed && reply.Succeeded? ==>
      && |r.0.orders| == |s.orders|
      && (forall i :: 0 <= i < |s.orders| ==>
            r.0.orders[i] == if s.orders[i].orderId == order.orderId
                                && forall j :: 0 <= j < i ==> s.orders[j].orderId != order.orderId
                             then s.orders[i].(status := status) else s.orders[i])
      && r.0 == s.(orders := r.0.orders, alert := Some(OrderStatusMessage))
    ensures confirmed && reply.Failed? ==>
      r.0 == s.(alert := Some("Failed to update status: " + MessageText(reply.err.message)))
  {
    if !confirmed then (s, None)
    else
      var url := StatusQuery.UpdateUrl(order.orderId, Some(status), None);
      match reply
      case Succeeded(_) =>
        (s.(orders := ChangeFirstOrder(s.orders, order.orderId, SetStatus(status)), alert := Some(OrderStatusMessage)), Some(url))
      case Failed(err) =>
        (s.(alert := Some("Failed to update status: " + MessageText(err.message))), Some(url))
  }

  /** `updatePaymentStatus`: as `updateOrderStatus`, for the payment status: on success
      the first cached order with that id gets the new payment status. */
  function UpdatePaymentStatus(s: AdminState, order: Order, status: string, confirmed: bool, reply: Reply<()>): (r: (AdminState, Option<string>))
    ensures !confirmed ==> r == (s, None)
    ensures confirmed ==> r.1 == Some(StatusQuery.UpdateUrl(order.orderId, None, Some(status)))
    ensures confirmed && reply.Succeeded? ==>
      && |r.0.orders| == |s.orders|
      && (forall i :: 0 <= i < |s.orders| ==>
            r.0.orders[i] == if s.orders[i].orderId == order.orderId
                                && forall j :: 0 <= j < i ==> s.orders[j].orderId != order.orderId
                             then s.orders[i].(paymentStatus := status) else s.orders[i])
      && r.0 == s.(orders := r.0.orders, alert := Some(PaymentStatusMessage))
    ensures confirmed && reply.Failed? ==>
      r.0 == s.(alert := Some("Failed to update status: " + MessageText(reply.err.message)))
  {
    if !confirmed then (s, None)
    else
      var url := StatusQuery.UpdateUrl(order.orderId, None, Some(status));
      match reply
      case Succeeded(_) =>
        (s.(orders := ChangeFirstOrder(s.orders, order.orderId, SetPaymentStatus(status)), alert := Some(PaymentStatusMessage)), Some(url))
      case Failed(err) =>
        (s.(alert := Some("Failed to update status: " + MessageText(err.message))), Some(url))
  }

  /** When order ids are unique and the order is cached, a successful status change
      changes exactly that order's status: the list reads back the new status at that
      order's position and nothing else differs. */
  lemma StatusChangeHitsOneOrder(s: AdminState, order: Order, status: string, k: int)
    requires forall i, j :: 0 <= i < j < |s.orders| ==> s.orders[i].orderId != s.orders[j].orderId
    requires 0 <= k < |s.orders| && s.orders[k].orderId == order.orderId
    ensures var r := UpdateOrderStatus(s, order, status, true, Succeeded(())).0;
      r.orders == s.orders[k := s.orders[k].(status := status)]
  {
  }

  /** The same for a payment status change: with unique order ids, exactly that order's
      payment status changes. */
  lemma PaymentStatusChangeHitsOneOrder(s: AdminState, order: Order, status: string, k: int)
    requires forall i, j :: 0 <= i < j < |s.orders| ==> s.orders[i].orderId != s.orders[j].orderId
    requires 0 <= k < |s.orders| && s.orders[k].orderId == order.orderId
    ensures var r := UpdatePaymentStatus(s, order, status, true, Succeeded(())).0;
      r.orders == s.orders[k := s.orders[k].(paymentStatus := status)]
  {
  }

  /** Setting the same payment status twice is the same as setting it once. */
  lemma PaymentStatusIdempotent(s: AdminState, order: Order, status: string)
    ensures var once := UpdatePaymentStatus(s, order, status, true, Succeeded(())).0;
      UpdatePaymentStatus(once, order, status, true, Succeeded(())).0.orders == once.orders
  {
  }
}

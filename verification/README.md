# Order management: cart, checkout, admin roster and order ledger

A Dafny model of the logic at the centre of a small order-management application. The application has an Angular client (customer and administrator dashboards, a registration form) and a Spring backend (product catalogue and order service). Everything is modelled with immutable datatypes and pure functions.

Remote calls come in two shapes:

- `placeOrder`, `saveEdit` and `saveNewProduct` read component state when they send. Each has a sending step and separate reply handlers, and a handler acts on the state current when the reply arrives. So other actions can run between request and reply, and lemmas state what that does.
- The delete and status actions change no state when they send. Their handlers read only their arguments and the state at reply time, so each is one function applied to that state.

Replies are inputs, and so is the answer to each confirmation dialog.

Modules, one per file:

- `Wrappers` (wrappers.dfy): `Option` and `Result`.
- `Seqs` (seqs.dfy): order-preserving filtering and `findIndex`.
- `Text` (text.dfy): character classes, rendering of numbers as decimal text, substring search, ASCII lower-casing.
- `Storefront` (storefront.dfy): the records the client exchanges with the server, and the shape of a remote reply.
- `Cart` (cart.dfy): the customer's cart.
  - Adding is gated by stock, but only for repeat adds.
  - Quantity validation sets one of three messages.
  - Removal is by position, with the semantics of `splice`.
  - The total is computed by a loop.
  - A predicate decides whether the cart can be submitted.
  - Every change is saved to session storage.
- `Confirmation` (confirmation.dfy): `extractOrderId`, the leftmost match of `ID:\s*(\d+)`.
- `Checkout` (checkout.dfy):
  - the request built from the cart;
  - the `POST /api/orders/place` endpoint, with its bean constraints;
  - the dashboard's success and failure handling;
  - an end-to-end theorem joining the client and the server.
- `AdminDashboard` (admin_dashboard.dfy):
  - the product roster, with load filtering and the edit, add and delete flows;
  - the `saving` guard;
  - the choice of error message;
  - status and payment-status changes to the cached orders.
- `StatusQuery` (status_query.dfy): the query string of a status update, and how the server's parameter binding reads it back.
- `Registration` (registration.dfy): the admin-name ban, the email and password regular expressions, the live hints and the order of checks in `register`.
- `Catalog` (product_controller.dfy): the product endpoints over an id-to-product map.
  - `create` clears the id.
  - `get`, `update` and `delete` answer not-found for an absent id.
  - `patch` sets fields key by key.
- `OrderLedger` (order_service.dfy): `placeOrder` as an all-or-nothing transaction over users, products and orders. Also `updateStatus` and `getOrdersByUser`.

Modelling conventions:

- Prices and totals are whole cents (`int`).
- A client-side product id is an `Option<int>`. JavaScript's `!id` is `None` or `Some(0)`.
- The `error` field of a cart line is a string, with `""` standing for "not set". Both are falsy.
- A `@Transactional` method that throws returns the ledger it was given.
- Regular expressions are stated as index-level predicates, with JavaScript's `\s` written out.
- The constraints on the product entity are checked when it is saved. Hibernate does this by default when a Bean Validation provider is present, and the `@Valid` endpoints need one. A save that breaks them throws and is answered 500.

## Model

| member | source | states |
|---|---|---|
| Cart.SaveCart | ecommerceorder-frontend/src/app/dashboard/user-dashboard/user-dashboard.ts:86-88 | a dashboard opened after the save restores exactly the saved cart, and nothing else in the view changes |
| Cart.LoadCart | ecommerceorder-frontend/src/app/dashboard/user-dashboard/user-dashboard.ts:79-84 | a stored cart replaces the one in memory verbatim; with nothing stored, the state is unchanged |
| Cart.AddToCart | ecommerceorder-frontend/src/app/dashboard/user-dashboard/user-dashboard.ts:90-105 | a new product is appended with quantity 1 whatever its stock; an existing first line goes up by exactly 1 iff it is below the passed product's stock, otherwise nothing changes and nothing is saved; at most one line per product id is kept |
| Cart.AddTimes | ecommerceorder-frontend/src/app/dashboard/user-dashboard/user-dashboard.ts:92-103 | after n adds of a new product there is one line for it, at the end, whose quantity is n while n does not exceed the stock, and the stock (at least 1) after that |
| Cart.AddBeyondStockRefused | ecommerceorder-frontend/src/app/dashboard/user-dashboard/user-dashboard.ts:96-100 | once the line has reached the stock, another add is refused and leaves the dashboard exactly as it was |
| Cart.ValidateQuantity | ecommerceorder-frontend/src/app/dashboard/user-dashboard/user-dashboard.ts:115-124 | the line's message is "" iff 1 <= quantity <= stock, otherwise the minimum or the exceeds-stock message; quantity, product and other lines are untouched; the cart is saved |
| Cart.EditQuantity | ecommerceorder-frontend/src/app/dashboard/user-dashboard/user-dashboard.ts:115-138 | an entered quantity below 1 or above the stock makes the cart unsubmittable |
| Cart.RemoveFromCart | ecommerceorder-frontend/src/app/dashboard/user-dashboard/user-dashboard.ts:126-129 | an index inside the cart removes exactly that line and keeps the others in order; an index past the end changes nothing; a negative index counts from the end; the cart is saved |
| Cart.RemovePreservesUniqueIds | ecommerceorder-frontend/src/app/dashboard/user-dashboard/user-dashboard.ts:126-129 | removal keeps at most one line per product id |
| Cart.CartTotal | ecommerceorder-frontend/src/app/dashboard/user-dashboard/user-dashboard.ts:131-133 | the reduce loop computes the sum of price times quantity over the lines |
| Cart.SumAppend | ecommerceorder-frontend/src/app/dashboard/user-dashboard/user-dashboard.ts:131-133 | the total of a concatenation is the sum of the totals |
| Cart.SumIgnoresMessages | ecommerceorder-frontend/src/app/dashboard/user-dashboard/user-dashboard.ts:131-133 | carts that differ only in their validation messages have the same total |
| Cart.RemoveLowersTotal | ecommerceorder-frontend/src/app/dashboard/user-dashboard/user-dashboard.ts:126-133 | removing line i lowers the total by exactly that line's amount |
| Cart.AddNewRaisesTotal | ecommerceorder-frontend/src/app/dashboard/user-dashboard/user-dashboard.ts:102-103 | adding a product not in the cart raises the total by its price |
| Cart.AnyBadLine | ecommerceorder-frontend/src/app/dashboard/user-dashboard/user-dashboard.ts:137 | `some` is true iff some line has a message or a quantity below 1 |
| Cart.IsCartValid | ecommerceorder-frontend/src/app/dashboard/user-dashboard/user-dashboard.ts:135-138 | submittable iff the cart is non-empty and every line has no message and a quantity of at least 1 |
| Cart.ValidatedCartSubmittable | ecommerceorder-frontend/src/app/dashboard/user-dashboard/user-dashboard.ts:115-138 | once every line carries the message validation gives it, the cart is submittable iff it is non-empty and every quantity lies in 1..stock |
| Confirmation.ScanFrom | ecommerceorder-frontend/src/app/dashboard/user-dashboard/user-dashboard.ts:188 | the search returns the capture of the leftmost match at or after a position, or nothing when no match starts there |
| Confirmation.ExtractOrderId | ecommerceorder-frontend/src/app/dashboard/user-dashboard/user-dashboard.ts:186-190 | no result iff the pattern matches nowhere; otherwise the digits captured by the leftmost match, a non-empty digit string |
| Confirmation.ExtractAfterMarker | ecommerceorder-frontend/src/app/dashboard/user-dashboard/user-dashboard.ts:186-190 | a message whose text before "ID: n" has no 'I' yields exactly the decimal digits of n |
| Confirmation.NoMarkerNoId | ecommerceorder-frontend/src/app/dashboard/user-dashboard/user-dashboard.ts:186-190 | a message without the letter 'I' yields no order number |
| Checkout.ShownOrderId | ecommerceorder-frontend/src/app/dashboard/user-dashboard/user-dashboard.ts:173 | the dialog shows the digits `extractOrderId` captures from the reply, and "Pending" iff the reply has no match |
| Checkout.SubmitOrder | ecommerceorder-frontend/src/app/dashboard/user-dashboard/user-dashboard.ts:140-157 | sending changes no state; a request is sent iff the cart is submittable, and it holds the user id, the clock and one (product id, quantity) pair per line in cart order |
| Checkout.OrderPlaced | ecommerceorder-frontend/src/app/dashboard/user-dashboard/user-dashboard.ts:158-176 | whatever the cart holds when the reply arrives is emptied in memory and in storage; the orders section and payment dialog are shown with the number read from the reply |
| Checkout.PlaceOrder | ecommerceorder-frontend/src/app/dashboard/user-dashboard/user-dashboard.ts:140-182 | with nothing in between, an unsubmittable cart sends nothing and changes nothing; otherwise the request mirrors the cart; on success the cart is emptied and the dialog shows the extracted number or "Pending"; on failure nothing changes |
| Checkout.DoubleSubmitSendsTwice | ecommerceorder-frontend/src/app/dashboard/user-dashboard/user-dashboard.ts:140-157 | with no in-flight flag, a second click before the reply posts the same order again |
| Checkout.AddDuringPlacementDiscarded | ecommerceorder-frontend/src/app/dashboard/user-dashboard/user-dashboard.ts:157-161 | a product added while a placement is in flight is not in the order, yet the success handler empties the cart and its stored copy, so the line is lost |
| Checkout.ClosePaymentModal | ecommerceorder-frontend/src/app/dashboard/user-dashboard/user-dashboard.ts:192-194 | only the dialog flag changes |
| Checkout.Bind | Order-Management/src/main/java/com/manage/dto/OrderItemRequest.java:7-11 | the body binds iff it has a user id, at least one item, and on every item a product id and a quantity of at least 1; the bound request keeps the items in order |
| Checkout.Place | Order-Management/src/main/java/com/manage/controller/OrderController.java:16-20 | a rejected body is answered 400 and the ledger is untouched; otherwise the reply succeeds iff the service's placement does, and the reply text names the new id |
| Checkout.ConfirmationShowsOrderId | Order-Management/src/main/java/com/manage/service/OrderService.java:66 | the client reads exactly the new order's id back out of the server's confirmation text |
| Checkout.ServerTotalMatchesCart | Order-Management/src/main/java/com/manage/service/OrderService.java:60-63 | when catalogue prices equal the cart's snapshots, the total the server records equals the cart's total |
| Checkout.CheckoutEndToEnd | ecommerceorder-frontend/src/app/dashboard/user-dashboard/user-dashboard.ts:140-182 | for a submittable cart of saved products, the server accepts iff the user exists and every product's total demand fits its stock; on acceptance the cart empties, the dialog shows the new id and the totals agree; on refusal neither side changes |
| AdminDashboard.LoadProducts | ecommerceorder-frontend/src/app/dashboard/admin-dashboard/admin-dashboard.ts:47-54 | the roster keeps exactly the fetched products with a positive id, with their multiplicities |
| AdminDashboard.LoadKeepsSavedProducts | ecommerceorder-frontend/src/app/dashboard/admin-dashboard/admin-dashboard.ts:51 | a fetched list whose ids are all positive is kept exactly |
| AdminDashboard.LoadPreservesOrder | ecommerceorder-frontend/src/app/dashboard/admin-dashboard/admin-dashboard.ts:51 | the filter preserves the fetched order |
| AdminDashboard.StartEdit | ecommerceorder-frontend/src/app/dashboard/admin-dashboard/admin-dashboard.ts:60-67 | a missing or zero id is refused with the alert and nothing else changes; any other id (negative included) opens that product with a copy in the form |
| AdminDashboard.LoadedProductsEditable | ecommerceorder-frontend/src/app/dashboard/admin-dashboard/admin-dashboard.ts:51-65 | every product on a loaded roster can be opened for editing |
| AdminDashboard.SaveEdit | ecommerceorder-frontend/src/app/dashboard/admin-dashboard/admin-dashboard.ts:69-78 | while a save is in flight nothing is sent; otherwise the flag is raised and the form's product is sent |
| AdminDashboard.DoubleSaveSendsOnce | ecommerceorder-frontend/src/app/dashboard/admin-dashboard/admin-dashboard.ts:71-76 | two clicks before the reply send exactly one request |
| AdminDashboard.SaveEndsReenable | ecommerceorder-frontend/src/app/dashboard/admin-dashboard/admin-dashboard.ts:91-120 | success, failure and cancel each let the next save send |
| AdminDashboard.SaveEditSucceeded | ecommerceorder-frontend/src/app/dashboard/admin-dashboard/admin-dashboard.ts:79-96 | the first product with the captured id is replaced by the snapshot, the length is unchanged, nothing is appended when the id is absent, other entries are untouched, and the form resets |
| AdminDashboard.SaveEditKeepsRoster | ecommerceorder-frontend/src/app/dashboard/admin-dashboard/admin-dashboard.ts:81-85 | a successful edit keeps the roster's ids and their order; a listed product's new copy appears in the roster |
| AdminDashboard.UpdateFailureMessage | ecommerceorder-frontend/src/app/dashboard/admin-dashboard/admin-dashboard.ts:104-111 | a non-empty string payload is used as is; else an object payload's JSON; else the transport message when non-empty; else "Server did not respond" |
| AdminDashboard.SaveEditFailed | ecommerceorder-frontend/src/app/dashboard/admin-dashboard/admin-dashboard.ts:101-113 | the flag clears, the roster and form are kept, and the alert carries the chosen message |
| AdminDashboard.CancelEdit | ecommerceorder-frontend/src/app/dashboard/admin-dashboard/admin-dashboard.ts:117-121 | edit mode ends, the form resets and the flag clears; the roster is kept |
| AdminDashboard.DeleteProduct | ecommerceorder-frontend/src/app/dashboard/admin-dashboard/admin-dashboard.ts:123-137 | nothing is sent unless confirmed; on success every product with the id is dropped and the others keep their multiplicities; on failure only the alert changes |
| AdminDashboard.DeleteKeepsOrder | ecommerceorder-frontend/src/app/dashboard/admin-dashboard/admin-dashboard.ts:128 | a delete works element by element and distributes over concatenation, so the survivors keep their order |
| AdminDashboard.DeleteAbsentKeepsRoster | ecommerceorder-frontend/src/app/dashboard/admin-dashboard/admin-dashboard.ts:128 | deleting an id nobody has leaves the roster as it was |
| AdminDashboard.ToggleAdd | ecommerceorder-frontend/src/app/dashboard/admin-dashboard/admin-dashboard.ts:139 | only the add-form flag flips |
| AdminDashboard.AddFailureMessage | ecommerceorder-frontend/src/app/dashboard/admin-dashboard/admin-dashboard.ts:169-176 | any string payload (even "") is used as is; else an object payload's JSON; else the transport message as JavaScript prints it |
| AdminDashboard.FailureMessagesAgree | ecommerceorder-frontend/src/app/dashboard/admin-dashboard/admin-dashboard.ts:104-111 | the update and add handlers choose the same message except on an empty string payload or a missing transport message |
| AdminDashboard.SubmitNewProduct | ecommerceorder-frontend/src/app/dashboard/admin-dashboard/admin-dashboard.ts:141-148 | nothing is sent iff the name is empty or the price is 0, and then only the alert is set; otherwise the form's product is sent and no state changes |
| AdminDashboard.NewProductSaved | ecommerceorder-frontend/src/app/dashboard/admin-dashboard/admin-dashboard.ts:149-165 | the returned product is appended at the end; the form closes and resets; nothing else changes |
| AdminDashboard.NewProductFailed | ecommerceorder-frontend/src/app/dashboard/admin-dashboard/admin-dashboard.ts:167-178 | the form stays open with its contents and only the alert changes |
| AdminDashboard.SaveNewProduct | ecommerceorder-frontend/src/app/dashboard/admin-dashboard/admin-dashboard.ts:141-180 | with nothing in between: refused iff the name is empty or the price is 0; on success the returned product is appended and the form closes and resets; on failure only the alert changes |
| AdminDashboard.ResubmitAfterAddRefused | ecommerceorder-frontend/src/app/dashboard/admin-dashboard/admin-dashboard.ts:143-155 | after a successful add the form is blank, so an immediate second click is refused and the product is not added twice |
| AdminDashboard.ChangeFirstOrder | ecommerceorder-frontend/src/app/dashboard/admin-dashboard/admin-dashboard.ts:188-193 | only the first order with the id is changed, and the length is kept |
| AdminDashboard.UpdateOrderStatus | ecommerceorder-frontend/src/app/dashboard/admin-dashboard/admin-dashboard.ts:183-208 | nothing is sent unless confirmed; the URL carries only the status; on success exactly the first order with the id gets the new status, and nothing else changes; on failure only the alert changes |
| AdminDashboard.UpdatePaymentStatus | ecommerceorder-frontend/src/app/dashboard/admin-dashboard/admin-dashboard.ts:210-234 | the same, for the payment status: exactly the first order with the id gets the new payment status |
| AdminDashboard.StatusChangeHitsOneOrder | ecommerceorder-frontend/src/app/dashboard/admin-dashboard/admin-dashboard.ts:188-193 | with unique order ids, a status change rewrites exactly that order's status |
| AdminDashboard.PaymentStatusChangeHitsOneOrder | ecommerceorder-frontend/src/app/dashboard/admin-dashboard/admin-dashboard.ts:215-217 | with unique order ids, a payment status change rewrites exactly that order's payment status |
| AdminDashboard.PaymentStatusIdempotent | ecommerceorder-frontend/src/app/dashboard/admin-dashboard/admin-dashboard.ts:215-220 | setting the same payment status twice equals setting it once |
| StatusQuery.QuerySuffix | ecommerceorder-frontend/src/app/services/order.service.ts:23-29 | "?" with neither value; "?status=S" with a status only; "?paymentStatus=P" with a payment status only; "?status=S&paymentStatus=P" with both; no trailing '&' when the values contain none |
| StatusQuery.UpdateUrlRoundTrip | ecommerceorder-frontend/src/app/services/order.service.ts:23-31 | for plain values, the address reaches the update mapping with exactly the order id, and with each status given as a non-empty value, and nothing otherwise |
| StatusQuery.QueryRoundTrip | ecommerceorder-frontend/src/app/services/order.service.ts:24-31 | for values without '&', '+', '%' or '#', the server's parameter binding reads back exactly the given non-empty values, and nothing for absent or empty ones |
| Registration.IsValidEmail | ecommerceorder-frontend/src/app/register/register.ts:54-55 | accepted iff the whole string is local-part characters, '@', domain characters, '.', and at least two letters |
| Registration.EmailSplitUnique | ecommerceorder-frontend/src/app/register/register.ts:54 | a matching email has exactly one way to match: the first '@' and the last '.' |
| Registration.IsStrongPassword | ecommerceorder-frontend/src/app/register/register.ts:61-62 | accepted iff at least 8 characters with no line terminator, and at least one lower-case and one upper-case letter |
| Registration.ValidateEmail | ecommerceorder-frontend/src/app/register/register.ts:27-34 | the hint is empty iff the email is empty or matches |
| Registration.ValidatePassword | ecommerceorder-frontend/src/app/register/register.ts:36-42 | the hint is empty iff the password is empty or has at least 8 characters |
| Registration.StrongPasswordHasNoHint | ecommerceorder-frontend/src/app/register/register.ts:36-42 | a password the register check accepts never shows the hint |
| Registration.HintWeakerThanRegister | ecommerceorder-frontend/src/app/register/register.ts:61-62 | "password" passes the hint but fails the register check |
| Registration.Register | ecommerceorder-frontend/src/app/register/register.ts:44-75 | messages cleared first; the admin ban, then the email, then the password check; the request is sent iff all three pass and carries the fields unchanged |
| Registration.AdminBanIgnoresCase | ecommerceorder-frontend/src/app/register/register.ts:48 | "ADMIN" in the email is banned like "admin" |
| Catalog.CreateProduct | Order-Management/src/main/java/com/manage/controller/ProductController.java:28-33 | an invalid body is answered 400; otherwise the product is stored under a fresh id, so no existing product is overwritten; the store and validity invariants are kept |
| Catalog.CreateIgnoresClientId | Order-Management/src/main/java/com/manage/controller/ProductController.java:30 | the id in the body never affects the outcome |
| Catalog.GetProductById | Order-Management/src/main/java/com/manage/controller/ProductController.java:41-46 | found iff the id is stored, and then returns the stored product |
| Catalog.UpdateProduct | Order-Management/src/main/java/com/manage/controller/ProductController.java:48-62 | an absent id is not-found with nothing changed; otherwise the five fields are copied from the body under the path id and other products are untouched |
| Catalog.Patch | Order-Management/src/main/java/com/manage/controller/ProductController.java:68-86 | succeeds iff every recognised key's value converts; then each recognised field is set from its key when present and kept otherwise |
| Catalog.PatchIgnoresUnknownKeys | Order-Management/src/main/java/com/manage/controller/ProductController.java:69-85 | keys outside the five are ignored |
| Catalog.PatchEmpty | Order-Management/src/main/java/com/manage/controller/ProductController.java:65-88 | an empty update leaves the product unchanged |
| Catalog.PatchIdempotent | Order-Management/src/main/java/com/manage/controller/ProductController.java:68-86 | applying the same update twice equals applying it once |
| Catalog.UpdateProductPartial | Order-Management/src/main/java/com/manage/controller/ProductController.java:64-91 | an absent id is not-found; a failed conversion, or a patched product that breaks the entity constraints, answers 500 with the store unchanged; otherwise only that id's product changes, to its patched form; the constraints on the catalogue are kept |
| Catalog.PartialUpdateRefusesInvalid | Order-Management/src/main/java/com/manage/model/Product.java:16-22 | a patch to a negative stock converts, but the save is refused with 500 and the stored product is kept |
| Catalog.DeleteProduct | Order-Management/src/main/java/com/manage/controller/ProductController.java:93-101 | an absent id is not-found with nothing changed; otherwise exactly that id is removed |
| Catalog.ReadAfterWrite | Order-Management/src/main/java/com/manage/controller/ProductController.java:28-101 | a read after a successful create or update returns what was written; a read after a delete is not-found |
| OrderLedger.ApplyItems | Order-Management/src/main/java/com/manage/service/OrderService.java:43-61 | on success every item's product exists, each stock drops by the total quantity requested of it, and the total is the sum of price times quantity |
| OrderLedger.ApplyItemsSucceedsIff | Order-Management/src/main/java/com/manage/service/OrderService.java:43-49 | the loop succeeds iff every item, when reached, names a known product and fits the stock left by the earlier items |
| OrderLedger.ApplyItemsFailsAtFirstBadItem | Order-Management/src/main/java/com/manage/service/OrderService.java:44-48 | a failure is raised at the first failing item and its message names that item's id or product name |
| OrderLedger.ApplyItemsKeepsStockNonNegative | Order-Management/src/main/java/com/manage/service/OrderService.java:47-57 | no stock touched by a successful placement goes negative |
| OrderLedger.PlaceOrder | Order-Management/src/main/java/com/manage/service/OrderService.java:25-67 | any failure leaves the ledger unchanged; an unknown user fails with "User not found!"; for a known user success iff every item passes its checks; on success the order is appended with PLACED, PENDING and the items' value, stock drops by demand, the next id advances and the reply names the id |
| OrderLedger.FeasibleBuildsUp | Order-Management/src/main/java/com/manage/service/OrderService.java:43-58 | if every item passes its checks, then every product's total demand fits its original stock |
| OrderLedger.PositiveQuantitiesFeasibility | Order-Management/src/main/java/com/manage/service/OrderService.java:43-58 | with quantities of at least 1, the item-by-item checks pass iff every product's total demand fits its original stock |
| OrderLedger.DuplicateItemsShareStock | Order-Management/src/main/java/com/manage/service/OrderService.java:47-57 | two lines of 2 against a stock of 3 fail on the second line, though one alone succeeds |
| OrderLedger.WithStatuses | Order-Management/src/main/java/com/manage/service/OrderService.java:86-89 | each status is overwritten iff a non-empty value is given; nothing else changes |
| OrderLedger.UpdateStatus | Order-Management/src/main/java/com/manage/service/OrderService.java:82-92 | an unknown id throws and changes nothing; otherwise only the first order with that id changes, and the saved order is returned |
| OrderLedger.UpdateStatusIdempotent | Order-Management/src/main/java/com/manage/service/OrderService.java:82-92 | repeating a status update changes nothing further |
| OrderLedger.OrdersByUser | Order-Management/src/main/java/com/manage/service/OrderService.java:73-80 | exactly the orders of that user, with their multiplicities |
| OrderLedger.OrdersByUserAppend | Order-Management/src/main/java/com/manage/service/OrderService.java:77-79 | the listing preserves repository order |
| Text.NatToString | Order-Management/src/main/java/com/manage/service/OrderService.java:66 | the decimal rendering of an id is a non-empty digit string with no leading zero |
| Text.NatToStringRoundTrip | Order-Management/src/main/java/com/manage/service/OrderService.java:66 | reading the rendered digits back gives the number |
| Text.Includes | ecommerceorder-frontend/src/app/register/register.ts:48 | `includes` is true iff the text occurs at some position |
| Text.ToLower | ecommerceorder-frontend/src/app/register/register.ts:48 | lower-casing keeps the length and maps each ASCII capital to its small letter |
| Seqs.Filter | ecommerceorder-frontend/src/app/dashboard/admin-dashboard/admin-dashboard.ts:51 | the result keeps exactly the elements passing the test, with their multiplicities |
| Seqs.FilterAppend | ecommerceorder-frontend/src/app/dashboard/admin-dashboard/admin-dashboard.ts:128 | filtering distributes over concatenation, so relative order is kept |
| Seqs.FindIndex | ecommerceorder-frontend/src/app/dashboard/admin-dashboard/admin-dashboard.ts:81 | the first position passing the test, or -1 iff none does |

## Left out

- Transport: HTTP, JSON encoding and the controllers' response wrapping. A remote call is a request value plus a reply given as input. The error object of a failed placement is not inspected by the client and stays a parameter.
- Storage: `sessionStorage` and `JSON.stringify`/`parse`. The stored cart is a field holding a copy of the cart.
- Timing: change detection, array re-spreads, `setTimeout` delays and the background reloads (`loadProducts` after a save or add, `loadOrders`, `loadMyOrders`). A reload replaces the whole list with the server's, so there is nothing to prove. Delayed success alerts are set in the same step as the change.
- `confirm` and `alert`: a confirmation is a boolean input, and an alert sets the `alert` field.
- Routing and login: the role checks in `ngOnInit`, `logout`, `showSection`, `showHelp` and the login component.
- Registration reply handling: the `register` callbacks after the request, and the redirect.
- `getAllProducts` and `getAllOrders`: a read of the whole table.
- Floating point: prices are whole cents, so totals are exact. Java's `double` rounding is not modelled.
- Catalog.Patch: only unsigned decimal digit strings and numbers convert. The full syntax accepted by `Double.valueOf` and `Integer.valueOf` is not modelled, nor the 32-bit range of `Integer`.
- Integers are unbounded. Java's 32-bit ids and quantities and JavaScript's double arithmetic are not modelled.
- Nulls: the boxed `Integer`/`Double`/`String` fields of the server's entities, which the bean constraints mostly exclude.
- Unicode: `toLowerCase` maps ASCII letters only, and string lengths count code points, not UTF-16 units.
- Identity allocation: an id allocated inside a rolled-back transaction is not skipped. The model allocates ids from a counter that only advances on success.
- `if (!this.editedProduct) return;` never fires, because the form always holds an object. It is not modelled.
- Only `saveEdit` has an in-flight guard. `placeOrder` and the status, payment, delete and add actions send a request on every click, and the model follows that code (Checkout.DoubleSubmitSendsTwice).
- Interleaving inside one action: the delete and status actions are single steps. No other action runs between their request and reply, which loses nothing, because they set no state when sending.
- The client's `orderDate` has no field in the server's request type, so it is dropped. The server stamps its own clock, which is an input here.
- A missing `quantity` on an item passes `@Min` and fails later in the service. The client always sends a number, so request quantities are plain integers.
- StatusQuery.QuerySuffix: the exact text is stated only when the payment status contains no '&'. With a trailing '&' in that value, the client strips it too.
- StatusQuery.QueryRoundTrip: holds only for values without '&', '+', '%' or '#'. The client builds the URL unencoded. StatusQuery.Decode reads values verbatim: it does not model the server's percent-decoding, '+' read as a space, or the browser cutting the address at '#'. StatusQuery.UpdateUrlRoundTrip inherits the same restriction.
- Confirmation.ExtractAfterMarker: covers only messages whose text before "ID:" has no 'I', which includes the server's confirmation text. Other texts are described by the general contract of Confirmation.ExtractOrderId.
- Checkout.CheckoutEndToEnd: stated for carts whose products all carry an id, as products listed by the server do. A line without an id is answered 400, as Checkout.Bind states.
- Catalog.DeleteProduct: removes the product even when order items refer to it. OrderItem.java is not part of this model. With a foreign key from order items to products, such a delete would fail at commit and answer 500 with the product kept.

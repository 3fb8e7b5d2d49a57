/** The customer dashboard's cart: stock-gated adds, quantity validation, removal by
    position, the running total and the submittability check, with every mutation
    persisted to session storage. */
module Cart {
  import opened Wrappers
  import opened Storefront

  /** One cart entry: a snapshot of the product (not refreshed from the catalog), the
      requested quantity, and the validation message ("" when none has been set). */
  datatype CartLine = CartLine(product: Product, quantity: int, error: string)

  /** The customer dashboard's state. `stored` is the copy of the cart held in session
      storage (None when nothing has been written under the cart key). */
  datatype Dashboard = Dashboard(
    cart: seq<CartLine>,
    stored: Option<seq<CartLine>>,
    section: string,
    lastOrderId: string,
    showPaymentModal: bool)

  const MinQuantityMessage := "Quantity must be at least 1"
  const ExceedsStockMessage := "Quantity exceeds stock"

  /** Whether `addToCart` changed the cart or refused with "Max stock reached in cart!". */
  datatype AddOutcome = Added | MaxStockReached

  /** A dashboard that has just been opened, before the cart is restored. */
  function Opened(stored: Option<seq<CartLine>>): Dashboard {
    Dashboard([], stored, "welcome", "", false)
  }

  /** Everything but the cart and its stored copy is the same in both states. */
  predicate SameView(d: Dashboard, e: Dashboard) {
    d.section == e.section && d.lastOrderId == e.lastOrderId && d.showPaymentModal == e.showPaymentModal
  }

  // ---------------------------------------------------------------- persistence

  /** `loadCart`: a stored cart, when one exists, replaces the one in memory verbatim. */
  function LoadCart(d: Dashboard): (r: Dashboard)
    ensures d.stored.Some? ==> r.cart == d.stored.value
    ensures d.stored.None? ==> r == d
    ensures r.stored == d.stored && SameView(r, d)
  {
    match d.stored
    case Some(saved) => d.(cart := saved)
    case None => d
  }

  /** `saveCart`: writes the cart to session storage. A dashboard opened afterwards
      restores exactly the cart that was saved. */
  function SaveCart(d: Dashboard): (r: Dashboard)
    ensures r.cart == d.cart && SameView(r, d)
    ensures LoadCart(Opened(r.stored)).cart == d.cart
  {
    d.(stored := Some(d.cart))
  }

  // ---------------------------------------------------------------- lookup

  predicate HasLine(cart: seq<CartLine>, id: Option<int>) {
    exists i :: 0 <= i < |cart| && cart[i].product.productId == id
  }

  /** Position `i` holds the first line for product `id`, the one `Array.find` returns. */
  predicate IsFirstLine(cart: seq<CartLine>, id: Option<int>, i: int) {
    && 0 <= i < |cart|
    && cart[i].product.productId == id
    && forall j :: 0 <= j < i ==> cart[j].product.productId != id
  }

  /** At most one line per product id. */
  predicate UniqueIds(cart: seq<CartLine>) {
    forall i, j :: 0 <= i < j < |cart| ==> cart[i].product.productId != cart[j].product.productId
  }

  /** The position of the first line for `id` at or after `from`, as `Array.find`
      scans. */
  function FindLine(cart: seq<CartLine>, id: Option<int>, from: nat): (r: Option<nat>)
    requires from <= |cart|
    ensures r.Some? ==> from <= r.value < |cart| && cart[r.value].product.productId == id
    ensures r.Some? ==> forall j :: from <= j < r.value ==> cart[j].product.productId != id
    ensures r.None? ==> forall j :: from <= j < |cart| ==> cart[j].product.productId != id
    decreases |cart| - from
  {
    if from == |cart| then None
    else if cart[from].product.productId == id then Some(from)
    else FindLine(cart, id, from + 1)
  }

  // ---------------------------------------------------------------- addToCart

  /** `addToCart`: a repeat add raises the first matching line by one when that stays
      below the passed product's stock, and otherwise refuses without saving; a first
      add appends a line of quantity 1 whatever the stock. */
  function AddToCart(d: Dashboard, p: Product): (r: (Dashboard, AddOutcome))
    ensures !HasLine(d.cart, p.productId) ==>
      && r.1 == Added
      && r.0.cart == d.cart + [CartLine(p, 1, "")]
      && r.0.stored == Some(r.0.cart)
    ensures forall i :: IsFirstLine(d.cart, p.productId, i) ==>
      if d.cart[i].quantity < p.stockQuantity then
        && r.1 == Added
        && |r.0.cart| == |d.cart|
        && r.0.cart[i] == d.cart[i].(quantity := d.cart[i].quantity + 1)
        && (forall j :: 0 <= j < |d.cart| && j != i ==> r.0.cart[j] == d.cart[j])
        && r.0.stored == Some(r.0.cart)
      else
        r == (d, MaxStockReached)
    ensures SameView(r.0, d)
    ensures UniqueIds(d.cart) ==> UniqueIds(r.0.cart)
  {
    match FindLine(d.cart, p.productId, 0)
    case Some(i) =>
      if d.cart[i].quantity < p.stockQuantity then
        (SaveCart(d.(cart := d.cart[i := d.cart[i].(quantity := d.cart[i].quantity + 1)])), Added)
      else
        (d, MaxStockReached)
    case None =>
      (SaveCart(d.(cart := d.cart + [CartLine(p, 1, "")])), Added)
  }

  /** The cart is `base` followed by one line for `p` of quantity `q`. */
  predicate LineAtEnd(base: seq<CartLine>, cart: seq<CartLine>, p: Product, q: int) {
    && |cart| == |base| + 1
    && (forall j :: 0 <= j < |base| ==> cart[j] == base[j])
    && cart[|base|].product == p
    && cart[|base|].quantity == q
  }

  /** The quantity the line reaches after `n >= 1` adds against `stock`. */
  function CappedCount(n: int, stock: int): int {
    if n <= stock then n else if stock < 1 then 1 else stock
  }

  /** One more add when the product's only line is the last one: it goes up by one
      while below the stock, and otherwise stays. */
  lemma AddToLineAtEnd(base: seq<CartLine>, prev: Dashboard, p: Product, q: int)
    requires !HasLine(base, p.productId)
    requires LineAtEnd(base, prev.cart, p, q)
    ensures LineAtEnd(base, AddToCart(prev, p).0.cart, p, if q < p.stockQuantity then q + 1 else q)
  {
    assert IsFirstLine(prev.cart, p.productId, |base|) by {
      forall j | 0 <= j < |base|
        ensures prev.cart[j].product.productId != p.productId
      {
        assert prev.cart[j] == base[j];
      }
    }
  }

  /** The `n`-th add, given what the first `n - 1` left. */
  lemma AddStep(d: Dashboard, prev: Dashboard, p: Product, n: nat)
    requires !HasLine(d.cart, p.productId) && n >= 1
    requires n == 1 ==> prev == d
    requires n >= 2 ==> LineAtEnd(d.cart, prev.cart, p, CappedCount(n - 1, p.stockQuantity))
    ensures LineAtEnd(d.cart, AddToCart(prev, p).0.cart, p, CappedCount(n, p.stockQuantity))
  {
    if n >= 2 {
      AddToLineAtEnd(d.cart, prev, p, CappedCount(n - 1, p.stockQuantity));
    }
  }

  /** `n` successive clicks on "add" for a product not yet in the cart: the first
      creates a line of quantity 1 at the end, and each further add raises it by one
      until it reaches the stock, after which the quantity stays put. So while the adds
      do not exceed the stock, the quantity counts them. */
  function AddTimes(d: Dashboard, p: Product, n: nat): (r: Dashboard)
    ensures !HasLine(d.cart, p.productId) && n >= 1 ==>
      LineAtEnd(d.cart, r.cart, p, CappedCount(n, p.stockQuantity))
    decreases n
  {
    if n == 0 then d
    else
      var prev := AddTimes(d, p, n - 1);
      if !HasLine(d.cart, p.productId) then
        AddStep(d, prev, p, n);
        AddToCart(prev, p).0
      else
        AddToCart(prev, p).0
  }

  /** Once the quantity has reached the stock, another add is refused and the
      dashboard is left exactly as it was. */
  lemma AddBeyondStockRefused(d: Dashboard, p: Product, n: nat)
    requires !HasLine(d.cart, p.productId)
    requires n >= 1 && n >= p.stockQuantity
    ensures AddToCart(AddTimes(d, p, n), p) == (AddTimes(d, p, n), MaxStockReached)
  {
    var prev := AddTimes(d, p, n);
    assert IsFirstLine(prev.cart, p.productId, |d.cart|) by {
      forall j | 0 <= j < |d.cart|
        ensures prev.cart[j].product.productId != p.productId
      {
        assert prev.cart[j] == d.cart[j];
      }
    }
  }

  // ---------------------------------------------------------------- validateQuantity

  /** The message `validateQuantity` assigns to a line. */
  function QuantityMessage(l: CartLine): string {
    if l.quantity < 1 then MinQuantityMessage
    else if l.quantity > l.product.stockQuantity then ExceedsStockMessage
    else ""
  }

  /** `validateQuantity`: sets the line's message from its quantity and its product
      snapshot's stock, touches nothing else, and always saves. */
  function ValidateQuantity(d: Dashboard, i: int): (r: Dashboard)
    requires 0 <= i < |d.cart|
    ensures |r.cart| == |d.cart|
    ensures r.cart[i].product == d.cart[i].product && r.cart[i].quantity == d.cart[i].quantity
    ensures r.cart[i].error == "" <==> 1 <= d.cart[i].quantity <= d.cart[i].product.stockQuantity
    ensures d.cart[i].quantity < 1 ==> r.cart[i].error == MinQuantityMessage
    ensures 1 <= d.cart[i].quantity && d.cart[i].quantity > d.cart[i].product.stockQuantity ==>
      r.cart[i].error == ExceedsStockMessage
    ensures forall j :: 0 <= j < |d.cart| && j != i ==> r.cart[j] == d.cart[j]
    ensures r.stored == Some(r.cart) && SameView(r, d)
  {
    SaveCart(d.(cart := d.cart[i := d.cart[i].(error := QuantityMessage(d.cart[i]))]))
  }

  /** The quantity input of line `i` is set to `q` (the form binding), then validated. */
  function EditQuantity(d: Dashboard, i: int, q: int): (r: Dashboard)
    requires 0 <= i < |d.cart|
    ensures |r.cart| == |d.cart| && r.cart[i].quantity == q
    ensures q < 1 || q > d.cart[i].product.stockQuantity ==> !IsCartValid(r.cart)
  {
    ValidateQuantity(d.(cart := d.cart[i := d.cart[i].(quantity := q)]), i)
  }

  // ---------------------------------------------------------------- removeFromCart

  /** Where `Array.prototype.splice(index, 1)` starts: a negative index counts from the
      end, and both ends are clamped to the array. */
  function SpliceStart(len: nat, index: int): (k: nat)
    ensures k <= len
  {
    if index < 0 then (if len + index < 0 then 0 else len + index)
    else if index > len then len
    else index
  }

  /** `removeFromCart`: removes exactly the line at `index` and keeps the others in
      order; an index past the end removes nothing; the cart is saved either way. */
  function RemoveFromCart(d: Dashboard, index: int): (r: Dashboard)
    ensures 0 <= index < |d.cart| ==> r.cart == d.cart[..index] + d.cart[index + 1..]
    ensures index >= |d.cart| ==> r.cart == d.cart
    ensures -|d.cart| <= index < 0 ==>
      r.cart == d.cart[..|d.cart| + index] + d.cart[|d.cart| + index + 1..]
    ensures index < -|d.cart| && |d.cart| > 0 ==> r.cart == d.cart[1..]
    ensures |d.cart| == 0 ==> r.cart == []
    ensures r.stored == Some(r.cart) && SameView(r, d)
  {
    var k := SpliceStart(|d.cart|, index);
    if k < |d.cart| then SaveCart(d.(cart := d.cart[..k] + d.cart[k + 1..]))
    else SaveCart(d)
  }

  /** The element at position `i` after position `k` is cut out. */
  lemma CutIndex(s: seq<CartLine>, k: int, i: int)
    requires 0 <= k < |s| && 0 <= i < |s| - 1
    ensures (s[..k] + s[k + 1..])[i] == s[if i < k then i else i + 1]
  {
  }

  /** Removing a line keeps at most one line per product id. */
  lemma RemovePreservesUniqueIds(d: Dashboard, index: int)
    requires UniqueIds(d.cart)
    ensures UniqueIds(RemoveFromCart(d, index).cart)
  {
    var k := SpliceStart(|d.cart|, index);
    if k < |d.cart| {
      var c := d.cart[..k] + d.cart[k + 1..];
      assert RemoveFromCart(d, index).cart == c;
      forall i, j | 0 <= i < j < |c|
        ensures c[i].product.productId != c[j].product.productId
      {
        CutIndex(d.cart, k, i);
        CutIndex(d.cart, k, j);
      }
    }
  }

  // ---------------------------------------------------------------- total

  function LineAmount(l: CartLine): int { l.product.price * l.quantity }

  /** Reference definition of the cart total: price times quantity, summed over the
      lines, whatever their validation messages. */
  function Sum(cart: seq<CartLine>): int
    decreases |cart|
  {
    if |cart| == 0 then 0 else Sum(cart[..|cart| - 1]) + LineAmount(cart[|cart| - 1])
  }

  /** `getCartTotal`: the `reduce` over the lines, starting from 0. */
  method CartTotal(cart: seq<CartLine>) returns (total: int)
    ensures total == Sum(cart)
  {
    total := 0;
    var i := 0;
    while i < |cart|
      invariant 0 <= i <= |cart|
      invariant total == Sum(cart[..i])
    {
      assert cart[..i + 1][..i] == cart[..i];
      total := total + LineAmount(cart[i]);
      i := i + 1;
    }
    assert cart[..|cart|] == cart;
  }

  lemma {:induction false} SumAppend(a: seq<CartLine>, b: seq<CartLine>)
    ensures Sum(a + b) == Sum(a) + Sum(b)
    decreases |b|
  {
    if |b| > 0 {
      assert (a + b)[..|a + b| - 1] == a + b[..|b| - 1];
      SumAppend(a, b[..|b| - 1]);
    } else {
      assert a + b == a;
    }
  }

  /** The total reads only prices and quantities: carts that differ only in their
      validation messages have the same total. */
  lemma {:induction false} SumIgnoresMessages(a: seq<CartLine>, b: seq<CartLine>)
    requires |a| == |b|
    requires forall i :: 0 <= i < |a| ==> a[i].product == b[i].product && a[i].quantity == b[i].quantity
    ensures Sum(a) == Sum(b)
    decreases |a|
  {
    if |a| > 0 {
      SumIgnoresMessages(a[..|a| - 1], b[..|b| - 1]);
    }
  }

  /** Removing line `i` lowers the total by exactly that line's amount. */
  lemma RemoveLowersTotal(d: Dashboard, i: int)
    requires 0 <= i < |d.cart|
    ensures Sum(RemoveFromCart(d, i).cart) == Sum(d.cart) - LineAmount(d.cart[i])
  {
    assert d.cart == d.cart[..i] + [d.cart[i]] + d.cart[i + 1..];
    SumAppend(d.cart[..i] + [d.cart[i]], d.cart[i + 1..]);
    SumAppend(d.cart[..i], [d.cart[i]]);
    SumAppend(d.cart[..i], d.cart[i + 1..]);
    assert Sum([d.cart[i]]) == LineAmount(d.cart[i]) by {
      assert [d.cart[i]][..0] == [];
    }
  }

  /** Adding a product not yet in the cart raises the total by its price. */
  lemma AddNewRaisesTotal(d: Dashboard, p: Product)
    requires !HasLine(d.cart, p.productId)
    ensures Sum(AddToCart(d, p).0.cart) == Sum(d.cart) + p.price
  {
    assert (d.cart + [CartLine(p, 1, "")])[..|d.cart|] == d.cart;
  }

  // ---------------------------------------------------------------- isCartValid

  predicate IsBadLine(l: CartLine) { l.error != "" || l.quantity < 1 }

  /** `Array.prototype.some` with the bad-line test. */
  function AnyBadLine(cart: seq<CartLine>): (r: bool)
    ensures r <==> exists i :: 0 <= i < |cart| && IsBadLine(cart[i])
    decreases |cart|
  {
    if |cart| == 0 then false
    else IsBadLine(cart[0]) || (assert forall i :: 1 <= i < |cart| ==> cart[i] == cart[1..][i - 1]; AnyBadLine(cart[1..]))
  }

  /** `isCartValid`: the cart may be submitted iff it is non-empty and every line has
      no message and a quantity of at least 1. */
  function IsCartValid(cart: seq<CartLine>): (r: bool)
    ensures r <==> |cart| > 0 && forall i :: 0 <= i < |cart| ==> cart[i].error == "" && cart[i].quantity >= 1
  {
    |cart| > 0 && !AnyBadLine(cart)
  }

  /** Every line carries the message `validateQuantity` would give it. */
  predicate Validated(cart: seq<CartLine>) {
    forall i :: 0 <= i < |cart| ==> cart[i].error == QuantityMessage(cart[i])
  }

  /** Once every line has been validated, the cart is submittable iff it is non-empty
      and every quantity lies between 1 and its product snapshot's stock. */
  lemma ValidatedCartSubmittable(cart: seq<CartLine>)
    requires Validated(cart)
    ensures IsCartValid(cart) <==>
      |cart| > 0 && forall i :: 0 <= i < |cart| ==> 1 <= cart[i].quantity <= cart[i].product.stockQuantity
  {
    if |cart| > 0 && forall i :: 0 <= i < |cart| ==> 1 <= cart[i].quantity <= cart[i].product.stockQuantity {
      forall i | 0 <= i < |cart| ensures cart[i].error == "" && cart[i].quantity >= 1 {
        assert cart[i].error == QuantityMessage(cart[i]);
      }
    }
  }
}

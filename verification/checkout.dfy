/** The checkout page (`src/routes/_authed/checkout.tsx`): the cart total in
    the selected currency, the increment button with its one-copy rule for
    digital goods, and the "pay" handler that posts the order to the payment
    route and follows the invoice link it returns. The HTTP exchange is a
    parameter: the reply the route gave, or the network failure. */
module Checkout {
  import opened Wrappers
  import opened ProductStore
  import opened CartStore
  import CurrencyStore
  import UserStore
  import Seqs
  import Text

  // ---------------------------------------------------------------------
  // Totals
  // ---------------------------------------------------------------------

  /** `item.price * item.quantity`, in the canonical currency. */
  function LineTotal(item: CartItem): real {
    item.product.price * item.quantity as real
  }

  /** `cart.reduce((acc, item) => acc + item.price * item.quantity, 0)`. */
  function Subtotal(items: seq<CartItem>): real {
    Seqs.SumReal(items, LineTotal)
  }

  /** `subtotal * currency.rate`: the figure shown and charged. */
  function ConvertedSubtotal(items: seq<CartItem>, currency: CurrencyStore.CurrencyConfig): real {
    Subtotal(items) * currency.rate
  }

  /** The cart total does not depend on the order of the lines. */
  lemma SubtotalReorder(a: seq<CartItem>, b: seq<CartItem>)
    requires multiset(a) == multiset(b)
    ensures Subtotal(a) == Subtotal(b)
  {
    Seqs.SumRealPermutation(a, b, LineTotal);
  }

  /** Adding a product the cart does not hold raises the total by its price; adding a digital
      product it already holds leaves the total alone; adding a physical product held at line
      `i` of a cart with one line per product raises the total by the price stored on that
      line, which may differ from the price of the product passed in. */
  lemma SubtotalAddItem(s: CartState, p: Product)
    ensures !HasLine(s.items, p.productId) ==> Subtotal(AddItem(s, p).items) == Subtotal(s.items) + p.price
    ensures HasLine(s.items, p.productId) && p.isDigital ==> Subtotal(AddItem(s, p).items) == Subtotal(s.items)
    ensures forall i :: OneLinePerProduct(s.items) && !p.isDigital
                        && 0 <= i < |s.items| && s.items[i].product.productId == p.productId ==>
      Subtotal(AddItem(s, p).items) == Subtotal(s.items) + s.items[i].product.price
  {
    if !HasLine(s.items, p.productId) {
      Seqs.SumRealConcat(s.items, [CartItem(p, 1)], LineTotal);
    }
    forall i | OneLinePerProduct(s.items) && !p.isDigital
               && 0 <= i < |s.items| && s.items[i].product.productId == p.productId
      ensures Subtotal(AddItem(s, p).items) == Subtotal(s.items) + s.items[i].product.price
    {
      SubtotalBump(s, p, i);
    }
  }

  /** Bumping line `i` adds one more unit at that line's stored price. */
  lemma SubtotalBump(s: CartState, p: Product, i: int)
    requires OneLinePerProduct(s.items) && !p.isDigital
    requires 0 <= i < |s.items| && s.items[i].product.productId == p.productId
    ensures Subtotal(AddItem(s, p).items) == Subtotal(s.items) + s.items[i].product.price
  {
    AddHeldSplice(s, p, i);
    SubtotalSplice(s.items, i);
  }

  /** One more unit on line `i` adds that line's price to the total. */
  lemma SubtotalSplice(items: seq<CartItem>, i: int)
    requires 0 <= i < |items|
    ensures Subtotal(items[..i] + [Bump(items[i])] + items[i + 1..]) == Subtotal(items) + items[i].product.price
  {
    var before, after := items[..i], items[i + 1..];
    assert items == before + [items[i]] + after;
    Seqs.SumRealSplice(before, items[i], after, LineTotal);
    Seqs.SumRealSplice(before, Bump(items[i]), after, LineTotal);
    assert LineTotal(Bump(items[i])) == LineTotal(items[i]) + items[i].product.price;
  }

  // ---------------------------------------------------------------------
  // The increment button
  // ---------------------------------------------------------------------

  /** `handleIncrement(item)`: a digital line already held raises the limit warning for that
      product and leaves the cart alone; any other line is raised by one through the store. */
  function HandleIncrement(s: CartState, item: CartItem): (r: (CartState, Option<string>))
    ensures item.product.isDigital && item.quantity >= 1 ==> r == (s, Some(item.product.productId))
    ensures !(item.product.isDigital && item.quantity >= 1) ==>
      r == (UpdateQuantity(s, item.product.productId, 1), None)
  {
    if item.product.isDigital && item.quantity >= 1 then (s, Some(item.product.productId))
    else (UpdateQuantity(s, item.product.productId, 1), None)
  }

  /** On a line of a well-formed cart the page's guard and the store's agree: the cart after
      the button is the cart after `updateQuantity(productId, 1)`, i.e. a digital line stays at
      one and a physical line gains one. */
  lemma IncrementMatchesStore(s: CartState, item: CartItem)
    requires WellFormed(s.items)
    requires item in s.items
    ensures HandleIncrement(s, item).0 == UpdateQuantity(s, item.product.productId, 1)
    ensures item.product.isDigital ==> HandleIncrement(s, item).0 == s
    ensures !item.product.isDigital ==>
      Lines(HandleIncrement(s, item).0.items) == Lines(s.items)[item.product.productId := item.(quantity := item.quantity + 1)]
  {
    var k := item.product.productId;
    var i :| 0 <= i < |s.items| && s.items[i] == item;
    Keyed.IndexAt(s.items, LineKey, i);
    if item.product.isDigital {
      forall j | 0 <= j < |s.items| && s.items[j].product.productId == k
        ensures s.items[j].product.isDigital
      {
        assert LineKey(s.items[j]) == LineKey(s.items[i]);
      }
      DigitalIncrementKeeps(s, k);
    } else {
      PhysicalIncrementLines(s, item);
    }
  }

  /** Raising a physical line by one through the store adds one unit to its ledger entry. */
  lemma PhysicalIncrementLines(s: CartState, item: CartItem)
    requires OneLinePerProduct(s.items) && PositiveQuantities(s.items)
    requires !item.product.isDigital
    requires item.product.productId in Lines(s.items) && Lines(s.items)[item.product.productId] == item
    ensures Lines(UpdateQuantity(s, item.product.productId, 1).items)
      == Lines(s.items)[item.product.productId := item.(quantity := item.quantity + 1)]
  {
    var k := item.product.productId;
    assert item.quantity > 0 by {
      LinesKeys(s.items);
      assert item in s.items;
    }
    UpdateQuantityLines(s, k, 1);
  }

  /** Raising a product whose lines are all digital leaves a well-formed cart as it is. */
  lemma DigitalIncrementKeeps(s: CartState, k: string)
    requires WellFormed(s.items)
    requires forall j :: 0 <= j < |s.items| && s.items[j].product.productId == k ==> s.items[j].product.isDigital
    ensures UpdateQuantity(s, k, 1) == s
  {
    var adjusted := Keyed.UpdateWhere(s.items, k, LineKey, AdjustBy(1));
    assert adjusted == s.items;
    Seqs.FilterKeepsAll(s.items, Positive);
  }

  // ---------------------------------------------------------------------
  // Paying
  // ---------------------------------------------------------------------

  /** One entry of `orderData.order_items`. */
  datatype OrderItemPayload = OrderItemPayload(id: int, productId: string, name: string, price: real, quantity: int)

  /** The body posted to the payment route. */
  datatype PaymentRequest = PaymentRequest(
    email: string,
    amount: real,
    currency: string,
    clerkId: Option<string>,
    orderItems: seq<OrderItemPayload>)

  /** What came back from the payment route. */
  datatype Reply =
    | NetworkError(message: string)
    | Reply(ok: bool, contentType: Option<string>, text: string, invoiceUrl: Option<string>, error: Option<string>)

  datatype Outcome =
    | EmailMissing           // the "Please enter a delivery email." alert, before any request
    | Redirected(url: string)
    | Alerted(message: string)

  datatype PaymentAttempt = PaymentAttempt(request: Option<PaymentRequest>, outcome: Outcome, isProcessing: bool)

  /** The email field's initial value: the synchronised email once the user record is
      loaded, otherwise what the field already holds. */
  function InitialEmail(user: UserStore.UserState, field: string): (r: string)
    ensures user.isLoaded && Truthy(user.email) ==> r == user.email.value
    ensures !(user.isLoaded && Truthy(user.email)) ==> r == field
  {
    if user.isLoaded && Truthy(user.email) then user.email.value else field
  }

  function ToPayload(item: CartItem): (r: OrderItemPayload)
    ensures r.productId == item.product.productId && r.price == item.product.price
    ensures r.quantity == item.quantity && r.id == item.product.id
  {
    OrderItemPayload(item.product.id, item.product.productId, item.product.name, item.product.price, item.quantity)
  }

  function PayloadTotal(o: OrderItemPayload): real {
    o.price * o.quantity as real
  }

  /** The order posted for this cart: the converted total, the currency code, and one entry
      per line carrying the line's canonical price. */
  function BuildRequest(email: string, items: seq<CartItem>, currency: CurrencyStore.CurrencyConfig,
                        clerkId: Option<string>): (r: PaymentRequest)
    ensures r.amount == ConvertedSubtotal(items, currency) && r.currency == currency.code
    ensures |r.orderItems| == |items|
    ensures forall i :: 0 <= i < |items| ==> r.orderItems[i] == ToPayload(items[i])
  {
    PaymentRequest(email, ConvertedSubtotal(items, currency), currency.code, clerkId,
      seq(|items|, i requires 0 <= i < |items| => ToPayload(items[i])))
  }

  const JsonType := "application/json"
  const DefaultFailure := "Payment failed to initialize."

  /** `Server Error: ${text.slice(0, 50)}...`. */
  function ServerErrorMessage(text: string): string {
    "Server Error: " + (if |text| <= 50 then text else text[..50]) + "..."
  }

  /** `handlePayment()`. An empty email is refused before any request. Otherwise the order is
      posted; a reply that is not JSON, not ok or without an invoice link ends in an alert and
      re-enables the button; an ok JSON reply with a link sends the browser there. */
  function HandlePayment(email: string, items: seq<CartItem>, currency: CurrencyStore.CurrencyConfig,
                         clerkId: Option<string>, reply: Reply): (r: PaymentAttempt)
    ensures email == "" <==> r.request.None?
    ensures email == "" ==> r.outcome == EmailMissing && !r.isProcessing
    ensures r.request.Some? ==> r.request.value == BuildRequest(email, items, currency, clerkId)
    ensures r.outcome.Redirected? <==>
      email != "" && reply.Reply? && Truthy(reply.contentType) && Text.Includes(reply.contentType.value, JsonType)
      && reply.ok && Truthy(reply.invoiceUrl)
    ensures r.outcome.Redirected? ==> r.outcome.url == reply.invoiceUrl.value
    ensures r.isProcessing <==> r.outcome.Redirected?
  {
    if email == "" then PaymentAttempt(None, EmailMissing, false)
    else
      var request := Some(BuildRequest(email, items, currency, clerkId));
      match reply
      case NetworkError(message) => PaymentAttempt(request, Alerted(message), false)
      case Reply(ok, contentType, text, invoiceUrl, error) =>
        if !Truthy(contentType) || !Text.Includes(contentType.value, JsonType) then
          PaymentAttempt(request, Alerted(ServerErrorMessage(text)), false)
        else if ok && Truthy(invoiceUrl) then
          PaymentAttempt(request, Redirected(invoiceUrl.value), true)
        else
          PaymentAttempt(request, Alerted(if Truthy(error) then error.value else DefaultFailure), false)
  }

  /** The pay button is shown only for a non-empty cart and is enabled only while no payment
      is in progress and an email is entered. */
  predicate PayEnabled(items: seq<CartItem>, email: string, isProcessing: bool) {
    |items| > 0 && !isProcessing && email != ""
  }

  /** Pressing an enabled button always posts an order for a non-empty cart. */
  lemma EnabledPaymentPosts(items: seq<CartItem>, email: string, currency: CurrencyStore.CurrencyConfig,
                            clerkId: Option<string>, reply: Reply)
    requires PayEnabled(items, email, false)
    ensures var r := HandlePayment(email, items, currency, clerkId, reply);
      r.request.Some? && |r.request.value.orderItems| > 0
  {
  }

  /** The entries posted total the canonical subtotal, not the converted amount posted beside
      them: the two agree only when the rate is 1 or the cart totals zero. */
  lemma PayloadCarriesCanonicalPrices(email: string, items: seq<CartItem>,
                                      currency: CurrencyStore.CurrencyConfig, clerkId: Option<string>)
    ensures var req := BuildRequest(email, items, currency, clerkId);
      && Seqs.SumReal(req.orderItems, PayloadTotal) == Subtotal(items)
      && (req.amount == Seqs.SumReal(req.orderItems, PayloadTotal) <==> currency.rate == 1.0 || Subtotal(items) == 0.0)
  {
    var req := BuildRequest(email, items, currency, clerkId);
    Seqs.SumRealPointwise(req.orderItems, PayloadTotal, items, LineTotal);
  }

  // ---------------------------------------------------------------------
  // The worked scenario
  // ---------------------------------------------------------------------

  const Ebook := Product(1, "ebook", 20.0, "S1", "FILE-EBOOK", "", "", true, None)
  const Mug := Product(2, "mug", 10.0, "S1", "FILE-MUG", "", "", false, None)
  const Peso58 := CurrencyStore.CurrencyConfig("PHP", "₱", "Philippine Peso", 58.0, true, 2)

  /** One digital item at 20 and a physical item at 10 added twice, shown at a rate of 58:
      the order posted to the payment route carries 2320 as its amount. */
  lemma CheckoutScenario()
    ensures var cart := AddItem(AddItem(AddItem(CartStore.Initial, Ebook), Mug), Mug);
      var r := HandlePayment("buyer@example.com", cart.items, Peso58, None, NetworkError(""));
      cart.items == [CartItem(Ebook, 1), CartItem(Mug, 2)]
      && r.request.Some? && r.request.value.amount == 2320.0
  {
    var c1 := AddItem(CartStore.Initial, Ebook);
    assert c1.items == [CartItem(Ebook, 1)];
    assert !HasLine(c1.items, Mug.productId);
    var c2 := AddItem(c1, Mug);
    assert c2.items == [CartItem(Ebook, 1), CartItem(Mug, 1)];
    assert HasLine(c2.items, Mug.productId) by { assert LineKey(c2.items[1]) == Mug.productId; }
    var c3 := AddItem(c2, Mug);
    assert c3.items == [CartItem(Ebook, 1), CartItem(Mug, 2)];
    var tail := [CartItem(Mug, 2)];
    assert c3.items[1..] == tail && tail[1..] == [];
    assert Seqs.SumReal(tail, LineTotal) == 20.0;
    assert Subtotal(c3.items) == 40.0;
  }
}

/** The payment route (`src/routes/api/payment/xendit-payment.ts`): it takes
    the order the checkout page posts, links it to the back-office user with
    the buyer's identity-provider id, records the order and its items, and
    opens an invoice with the payment provider under the same external id.
    Each outbound call is an effect in the list the handler returns; the
    replies it needs (the user lookup, whether the order was saved, the
    invoice link) are inputs. */
module XenditPayment {
  import opened Wrappers
  import Text
  import Checkout

  datatype InvoiceItem = InvoiceItem(name: string, quantity: int, price: int, category: string)

  datatype Invoice = Invoice(
    externalId: string,
    amount: int,
    payerEmail: string,
    currency: string,
    description: string,
    items: seq<InvoiceItem>)

  datatype Effect =
    | FindUserByClerkId(clerkId: Option<string>)
    | CreateOrder(transactionId: string, orderStatus: string, user: Option<int>, orderAmount: real)
    | CreateOrderItem(product: int, order: int, priceAtPurchase: real, quantity: int)
    | CreateInvoice(invoice: Invoice)

  /** The back office's answer to the order creation: the new order's id, or a refusal. */
  datatype SaveResult = Saved(orderId: int) | Refused

  datatype Response = Response(status: int, invoiceUrl: Option<string>)

  const PendingStatus := "pending"

  /** `Math.round(x)`: the nearest integer, halves rounded up. */
  function Round(x: real): (r: int)
    ensures r as real - 0.5 <= x < r as real + 0.5
  {
    (x + 0.5).Floor
  }

  /** `order-${Date.now()}`, the clock reading being an input. */
  function ExternalId(now: int): string {
    "order-" + Text.IntToString(now)
  }

  /** An invoice item's category: the product's file id, a colon, and its numeric id. */
  function EncodeCategory(productId: string, id: int): (r: string)
    ensures Text.IsPrefix(productId + [':'], r)
  {
    productId + [':'] + Text.IntToString(id)
  }

  /** Split at its first colon, a category gives back the file id and the printed numeric id,
      provided the file id holds no colon itself. */
  lemma CategorySplits(productId: string, id: int)
    requires ':' !in productId
    ensures Text.BeforeFirst(EncodeCategory(productId, id), ':') == productId
    ensures Text.AfterFirst(EncodeCategory(productId, id), ':') == Text.IntToString(id)
  {
    Text.SplitJoin(productId, ':', Text.IntToString(id));
  }

  function ToInvoiceItem(item: Checkout.OrderItemPayload): (r: InvoiceItem)
    ensures r.name == item.name && r.quantity == item.quantity
    ensures r.price == Round(item.price)
    ensures r.category == EncodeCategory(item.productId, item.id)
  {
    InvoiceItem(item.name, item.quantity, Round(item.price), EncodeCategory(item.productId, item.id))
  }

  function ToOrderItem(item: Checkout.OrderItemPayload, orderId: int): Effect {
    CreateOrderItem(item.id, orderId, item.price, item.quantity)
  }

  /** The linked user: the first id the lookup returned, or none. */
  function LinkedUser(users: seq<int>): (r: Option<int>)
    ensures r.None? <==> |users| == 0
    ensures r.Some? ==> r.value == users[0]
  {
    if |users| == 0 then None else Some(users[0])
  }

  /** `Purchase by user ${clerkId || "Guest"}`. */
  function Description(clerkId: Option<string>): string {
    "Purchase by user " + (if Truthy(clerkId) then clerkId.value else "Guest")
  }

  function BuildInvoice(req: Checkout.PaymentRequest, externalId: string): (r: Invoice)
    ensures r.externalId == externalId && r.amount == Round(req.amount)
    ensures r.payerEmail == req.email && r.currency == req.currency
    ensures |r.items| == |req.orderItems|
    ensures forall i :: 0 <= i < |r.items| ==> r.items[i] == ToInvoiceItem(req.orderItems[i])
  {
    Invoice(externalId, Round(req.amount), req.email, req.currency, Description(req.clerkId),
      seq(|req.orderItems|, i requires 0 <= i < |req.orderItems| => ToInvoiceItem(req.orderItems[i])))
  }

  /** The POST handler. The order is created pending, with the posted amount and the linked
      user; if the back office refuses it the handler answers 500 before creating any item or
      invoice. Otherwise one item is created per posted line, in order (a failed item is only
      logged), then the invoice, and the handler answers 200 with the provider's link. */
  function Handle(req: Checkout.PaymentRequest, now: int, users: seq<int>, save: SaveResult,
                  invoiceUrl: Option<string>): (r: (Response, seq<Effect>))
    ensures |r.1| >= 2
    ensures r.1[0] == FindUserByClerkId(req.clerkId)
    ensures r.1[1] == CreateOrder(ExternalId(now), PendingStatus, LinkedUser(users), req.amount)
    ensures save.Refused? <==> r.0.status == 500
    ensures save.Refused? ==> |r.1| == 2
    ensures save.Saved? ==>
      (&& r.0 == Response(200, invoiceUrl)
       && |r.1| == |req.orderItems| + 3
       && (forall i :: 0 <= i < |req.orderItems| ==>
             r.1[i + 2] == CreateOrderItem(req.orderItems[i].id, save.orderId, req.orderItems[i].price,
                                           req.orderItems[i].quantity))
       && r.1[|r.1| - 1] == CreateInvoice(BuildInvoice(req, ExternalId(now))))
  {
    var externalId := ExternalId(now);
    var prefix := [FindUserByClerkId(req.clerkId), CreateOrder(externalId, PendingStatus, LinkedUser(users), req.amount)];
    match save
    case Refused => (Response(500, None), prefix)
    case Saved(orderId) =>
      var items := seq(|req.orderItems|, i requires 0 <= i < |req.orderItems| => ToOrderItem(req.orderItems[i], orderId));
      (Response(200, invoiceUrl), prefix + items + [CreateInvoice(BuildInvoice(req, externalId))])
  }

  /** The order and the invoice carry the same external id, so the provider's callback can
      find the order. */
  lemma SharedExternalId(req: Checkout.PaymentRequest, now: int, users: seq<int>, orderId: int,
                         invoiceUrl: Option<string>)
    ensures var (_, effects) := Handle(req, now, users, Saved(orderId), invoiceUrl);
      effects[1].CreateOrder? && effects[|effects| - 1].CreateInvoice?
      && effects[1].transactionId == effects[|effects| - 1].invoice.externalId
  {
  }

  /** Two different clock readings give different external ids. */
  lemma ExternalIdsDiffer(a: int, b: int)
    requires a != b
    ensures ExternalId(a) != ExternalId(b)
  {
    var pa, pb := ExternalId(a), ExternalId(b);
    assert pa[6..] == Text.IntToString(a) && pb[6..] == Text.IntToString(b);
    Text.IntToStringInjective(a, b);
  }

  /** The invoice amount is the posted amount rounded, never more than half a unit away. */
  lemma InvoiceAmountClose(req: Checkout.PaymentRequest, externalId: string)
    ensures var inv := BuildInvoice(req, externalId);
      -0.5 < inv.amount as real - req.amount <= 0.5
  {
  }
}

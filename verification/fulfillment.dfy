/** The purchase as it travels between the pieces: the checkout page posts
    the order, the payment route encodes each line's file id and numeric
    product id into the invoice item's category, the provider echoes the
    items back in its PAID callback, the webhook decodes them into the
    buyer's `purchased` relation and delivers the files, and the session
    synchroniser reads the relation back into the user store. The lemmas
    here state what survives each hop. */
module Fulfillment {
  import opened Wrappers
  import Text
  import CartStore
  import CurrencyStore
  import UserStore
  import Checkout
  import XenditPayment
  import XenditWebhook
  import BackOffice
  import StrapiUsers
  import AuthSync
  import OrdersView

  /** The items of a PAID callback for an invoice: the provider returns each invoice item's
      name and category. */
  function CallbackItems(inv: XenditPayment.Invoice): (r: seq<XenditWebhook.CallbackItem>)
    ensures |r| == |inv.items|
    ensures forall i :: 0 <= i < |r| ==>
      r[i] == XenditWebhook.CallbackItem(inv.items[i].name, Some(inv.items[i].category))
  {
    seq(|inv.items|, i requires 0 <= i < |inv.items| =>
      XenditWebhook.CallbackItem(inv.items[i].name, Some(inv.items[i].category)))
  }

  /** The numeric product ids of the posted lines, in line order. */
  function PostedIds(req: Checkout.PaymentRequest): (r: seq<int>)
    ensures |r| == |req.orderItems|
    ensures forall i :: 0 <= i < |r| ==> r[i] == req.orderItems[i].id
  {
    seq(|req.orderItems|, i requires 0 <= i < |req.orderItems| => req.orderItems[i].id)
  }

  /** A line the round trip can carry: a file id without a colon and a non-negative id. */
  predicate Encodable(item: Checkout.OrderItemPayload) {
    ':' !in item.productId && item.id >= 0
  }

  /** The category the payment route writes decodes, in the webhook, to the same numeric id,
      and its file id is the product's file id. A negative id prints with a minus sign and is
      not read back at all. */
  lemma CategoryRoundTrip(productId: string, id: int)
    requires ':' !in productId
    ensures XenditWebhook.FileIdOf(XenditPayment.EncodeCategory(productId, id)) == productId
    ensures id >= 0 ==> XenditWebhook.DecodeCategory(Some(XenditPayment.EncodeCategory(productId, id))) == Some(id)
    ensures id < 0 ==> XenditWebhook.DecodeCategory(Some(XenditPayment.EncodeCategory(productId, id))) == None
  {
    var category := XenditPayment.EncodeCategory(productId, id);
    var printed := Text.IntToString(id);
    XenditPayment.CategorySplits(productId, id);
    assert category[|productId|] == ':';
    assert Text.SecondSegment(category, ':') == Some(printed);
    if id >= 0 {
      Text.ParsePrinted(id);
    } else {
      assert printed[0] == '-';
      assert !Text.IsDigit(printed[0]);
    }
  }

  /** When every item's category decodes, the new ids are exactly the decoded ids, in order. */
  lemma {:induction false} AllDecoded(items: seq<XenditWebhook.CallbackItem>, ids: seq<int>)
    requires |items| == |ids|
    requires forall i :: 0 <= i < |items| ==> XenditWebhook.DecodeCategory(items[i].category) == Some(ids[i])
    ensures XenditWebhook.NewProductIds(items) == ids
  {
    if |items| > 0 {
      DecodedTail(items, ids);
      AllDecoded(items[1..], ids[1..]);
      XenditWebhook.NewProductIdsDecodedHead(items, ids[0]);
      assert ids == [ids[0]] + ids[1..];
    }
  }

  /** Dropping the first item and the first id keeps every item decoding to its id. */
  lemma DecodedTail(items: seq<XenditWebhook.CallbackItem>, ids: seq<int>)
    requires |items| == |ids| > 0
    requires forall i :: 0 <= i < |items| ==> XenditWebhook.DecodeCategory(items[i].category) == Some(ids[i])
    ensures forall i :: 0 <= i < |items[1..]| ==> XenditWebhook.DecodeCategory(items[1..][i].category) == Some(ids[1..][i])
  {
    forall i | 0 <= i < |items[1..]|
      ensures XenditWebhook.DecodeCategory(items[1..][i].category) == Some(ids[1..][i])
    {
      assert items[1..][i] == items[i + 1] && ids[1..][i] == ids[i + 1];
    }
  }

  /** The callback for an invoice the payment route built names exactly the posted products,
      in the posted order. */
  lemma InvoiceRoundTrip(req: Checkout.PaymentRequest, externalId: string)
    requires forall i :: 0 <= i < |req.orderItems| ==> Encodable(req.orderItems[i])
    ensures XenditWebhook.NewProductIds(CallbackItems(XenditPayment.BuildInvoice(req, externalId))) == PostedIds(req)
  {
    var items := CallbackItems(XenditPayment.BuildInvoice(req, externalId));
    forall i | 0 <= i < |items|
      ensures XenditWebhook.DecodeCategory(items[i].category) == Some(PostedIds(req)[i])
    {
      CategoryRoundTrip(req.orderItems[i].productId, req.orderItems[i].id);
    }
    AllDecoded(items, PostedIds(req));
  }

  /** The callback for such an invoice delivers every posted line, each with the link to its
      own file, in order, provided no file id is empty. */
  lemma InvoiceDelivers(req: Checkout.PaymentRequest, externalId: string, email: string)
    requires forall i :: 0 <= i < |req.orderItems| ==> Encodable(req.orderItems[i]) && req.orderItems[i].productId != ""
    ensures var d := XenditWebhook.Deliver(CallbackItems(XenditPayment.BuildInvoice(req, externalId)), email);
      && d.completed && |d.links| == |req.orderItems|
      && forall i :: 0 <= i < |req.orderItems| ==>
           d.links[i] == XenditWebhook.Link(req.orderItems[i].name, XenditWebhook.DriveUrl(req.orderItems[i].productId))
  {
    var items := CallbackItems(XenditPayment.BuildInvoice(req, externalId));
    forall i | 0 <= i < |items|
      ensures items[i].category.Some? && XenditWebhook.FileIdOf(items[i].category.value) == req.orderItems[i].productId
    {
      CategoryRoundTrip(req.orderItems[i].productId, req.orderItems[i].id);
    }
    XenditWebhook.DeliverEveryItem(items, email);
  }

  /** A synchronised session whose record is unblocked and owns a file id loads that file id
      into the user store. */
  lemma SyncLoadsOwned(s: UserStore.UserState, session: AuthSync.Session, rec: StrapiUsers.UserRecord, fileId: string)
    requires AuthSync.Ready(session) && !StrapiUsers.IsBlocked(rec)
    requires fileId in StrapiUsers.ProductIds(rec)
    ensures fileId in AuthSync.Apply(s, AuthSync.SyncUser(session, StrapiUsers.Answered(StrapiUsers.Plain([rec])))).purchasedIds
  {
    AuthSync.SyncOutcomes(s, session, StrapiUsers.Answered(StrapiUsers.Plain([rec])));
  }

  /** End to end: a PAID callback whose order calls do not fail and whose item decodes to
      product `n`, for a buyer with a user record, leaves every record with that user's id owning `n`; read back with its relation
      populated, the record lists the product's file id, and the next session sync of an
      unblocked buyer puts that file id in the user store. */
  lemma PaidProductReachesLibrary(header: Option<string>, configured: Option<string>,
                                  body: XenditWebhook.Callback, b: BackOffice.Backend,
                                  calls: XenditWebhook.OrderCalls, k: int, n: int, fileId: string,
                                  s: UserStore.UserState, session: AuthSync.Session)
    requires XenditWebhook.Authorized(header, configured) && body.status == Some(XenditWebhook.PaidStatus)
    requires !XenditWebhook.OrderStepThrows(body, b.orders, calls)
    requires Truthy(XenditWebhook.Customer(body, b.orders, calls))
    requires |BackOffice.UsersWithEmail(b.users, XenditWebhook.Customer(body, b.orders, calls).value)| > 0
    requires body.items.Some? && 0 <= k < |body.items.value|
    requires XenditWebhook.DecodeCategory(body.items.value[k].category) == Some(n)
    requires BackOffice.ProductById(b.products, n) == Some(BackOffice.ProductRow(n, fileId))
    requires AuthSync.Ready(session)
    ensures var r := XenditWebhook.Handle(header, configured, body, b, calls);
      var u := BackOffice.UsersWithEmail(b.users, XenditWebhook.Customer(body, b.orders, calls).value)[0];
      forall v :: v in r.backend.users && v.id == u.id ==>
        && n in v.purchased
        && fileId in StrapiUsers.ProductIds(BackOffice.Populate(v, r.backend.products))
        && (v.blocked != Some(true) ==>
              fileId in AuthSync.Apply(s, AuthSync.SyncUser(session,
                StrapiUsers.Answered(StrapiUsers.Plain([BackOffice.Populate(v, r.backend.products)])))).purchasedIds)
  {
    var r := XenditWebhook.Handle(header, configured, body, b, calls);
    var email := XenditWebhook.Customer(body, b.orders, calls).value;
    var u := BackOffice.UsersWithEmail(b.users, email)[0];
    var items := body.items.value;
    var merged := XenditWebhook.MergePurchased(StrapiUsers.NumericIds(BackOffice.Populate(u, b.products)),
                                               XenditWebhook.NewProductIds(items));
    XenditWebhook.PurchaseRule(header, configured, body, b, calls);
    assert r.backend.users == BackOffice.UpdatePurchased(b.users, u.id, merged);
    assert r.backend.products == b.products;
    XenditWebhook.NewProductIdsMembers(items);
    assert n in XenditWebhook.NewProductIds(items);
    assert n in merged;
    UpdatedRowsLoad(b.users, u.id, merged, b.products, n, fileId, s, session);
  }

  /** Every row the relation update wrote owns `n` and, read back populated and synchronised
      while unblocked, loads `n`'s file id. */
  lemma UpdatedRowsLoad(users: seq<BackOffice.UserRow>, id: int, merged: seq<int>,
                        products: seq<BackOffice.ProductRow>, n: int, fileId: string,
                        s: UserStore.UserState, session: AuthSync.Session)
    requires n in merged
    requires BackOffice.ProductById(products, n) == Some(BackOffice.ProductRow(n, fileId))
    requires AuthSync.Ready(session)
    ensures forall v :: v in BackOffice.UpdatePurchased(users, id, merged) && v.id == id ==>
      && n in v.purchased
      && fileId in StrapiUsers.ProductIds(BackOffice.Populate(v, products))
      && (v.blocked != Some(true) ==>
            fileId in AuthSync.Apply(s, AuthSync.SyncUser(session,
              StrapiUsers.Answered(StrapiUsers.Plain([BackOffice.Populate(v, products)])))).purchasedIds)
  {
    var updated := BackOffice.UpdatePurchased(users, id, merged);
    forall v | v in updated && v.id == id
      ensures n in v.purchased
      ensures fileId in StrapiUsers.ProductIds(BackOffice.Populate(v, products))
      ensures v.blocked != Some(true) ==>
        fileId in AuthSync.Apply(s, AuthSync.SyncUser(session,
          StrapiUsers.Answered(StrapiUsers.Plain([BackOffice.Populate(v, products)])))).purchasedIds
    {
      var i :| 0 <= i < |updated| && updated[i] == v;
      assert v.purchased == merged;
      OwnedRecordLoads(v, products, n, fileId, s, session);
    }
  }

  /** A user row whose relation holds `n`, read back populated, lists `n`'s file id, and a
      sync of that record, when unblocked, loads it. */
  lemma OwnedRecordLoads(v: BackOffice.UserRow, products: seq<BackOffice.ProductRow>, n: int, fileId: string,
                         s: UserStore.UserState, session: AuthSync.Session)
    requires n in v.purchased
    requires BackOffice.ProductById(products, n) == Some(BackOffice.ProductRow(n, fileId))
    requires AuthSync.Ready(session)
    ensures fileId in StrapiUsers.ProductIds(BackOffice.Populate(v, products))
    ensures v.blocked != Some(true) ==>
      fileId in AuthSync.Apply(s, AuthSync.SyncUser(session,
        StrapiUsers.Answered(StrapiUsers.Plain([BackOffice.Populate(v, products)])))).purchasedIds
  {
    var entry := StrapiUsers.PurchasedEntry(n, fileId);
    BackOffice.PopulateIdsMembers(v.purchased, products);
    var rec := BackOffice.Populate(v, products);
    assert entry in rec.purchased.value;
    StrapiUsers.ReadingsAgree(rec, entry);
    if v.blocked != Some(true) {
      SyncLoadsOwned(s, session, rec, fileId);
    }
  }

  /** The order the payment route records for a checkout carries the converted total, so the
      order history, which converts the stored amount again, shows the canonical total times
      the rate twice. */
  lemma HistoryShowsTwiceConverted(email: string, items: seq<CartStore.CartItem>,
                                   currency: CurrencyStore.CurrencyConfig, clerkId: Option<string>,
                                   now: int, users: seq<int>, save: XenditPayment.SaveResult,
                                   invoiceUrl: Option<string>, o: OrdersView.Order)
    requires var (_, effects) := XenditPayment.Handle(Checkout.BuildRequest(email, items, currency, clerkId),
                                                      now, users, save, invoiceUrl);
      o.orderAmount == effects[1].orderAmount
    ensures OrdersView.ShownAmount(o, currency.rate) == Checkout.Subtotal(items) * currency.rate * currency.rate
    ensures OrdersView.ShownAmount(o, currency.rate) == o.orderAmount <==>
      currency.rate == 0.0 || currency.rate == 1.0 || Checkout.Subtotal(items) == 0.0
  {
    RecordedConverted(email, items, currency, clerkId, now, users, save, invoiceUrl);
    OrdersView.ShownAmountConvertsTwice(o, Checkout.Subtotal(items), currency.rate);
  }

  /** The pending order recorded for a checkout carries the cart total times the rate. */
  lemma RecordedConverted(email: string, items: seq<CartStore.CartItem>,
                          currency: CurrencyStore.CurrencyConfig, clerkId: Option<string>,
                          now: int, users: seq<int>, save: XenditPayment.SaveResult, invoiceUrl: Option<string>)
    ensures var req := Checkout.BuildRequest(email, items, currency, clerkId);
      XenditPayment.Handle(req, now, users, save, invoiceUrl).1[1].orderAmount
        == Checkout.Subtotal(items) * currency.rate
  {
    var req := Checkout.BuildRequest(email, items, currency, clerkId);
    RecordedAmount(req, now, users, save, invoiceUrl);
    assert req.amount == Checkout.ConvertedSubtotal(items, currency);
  }

  /** The pending order the payment route records carries the posted amount. */
  lemma RecordedAmount(req: Checkout.PaymentRequest, now: int, users: seq<int>, save: XenditPayment.SaveResult,
                       invoiceUrl: Option<string>)
    ensures var effects := XenditPayment.Handle(req, now, users, save, invoiceUrl).1;
      effects[1].CreateOrder? && effects[1].orderAmount == req.amount
  {
  }
}

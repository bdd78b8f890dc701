/** The payment provider's callback (`src/routes/api/payment/xendit-webhook.ts`).
    After the shared-token check, a PAID invoice completes the matching order,
    adds the bought products to the buyer's `purchased` relation, grants the
    buyer read access to each product's file and mails the download links.
    The handler returns its status, the outbound calls in the order it makes
    them, and the back office as the calls leave it. Each file grant is an
    effect whose outcome the handler does not look at; how the two order calls
    go is an input, because their failures decide the status. */
module XenditWebhook {
  import opened Wrappers
  import Seqs
  import Text
  import BackOffice
  import StrapiUsers

  datatype CallbackItem = CallbackItem(name: string, category: Option<string>)

  /** The callback body's fields the handler reads. */
  datatype Callback = Callback(
    status: Option<string>,
    externalId: string,
    id: Option<string>,
    paymentId: Option<string>,
    paidAt: Option<string>,
    paymentChannel: Option<string>,
    paymentMethod: Option<string>,
    payerEmail: Option<string>,
    items: Option<seq<CallbackItem>>)

  datatype Link = Link(name: string, url: string)

  datatype Effect =
    | FindOrder(transactionId: string)
    | PutOrder(documentId: string, patch: BackOffice.OrderPatch)
    | FindUser(email: string)
    | PutUser(id: int, purchased: seq<int>)
    | Grant(fileId: string, email: string)
    | SendEmail(to: string, orderId: string, links: seq<Link>)

  datatype Outcome = Outcome(status: int, effects: seq<Effect>, backend: BackOffice.Backend)

  /** How the order step's two calls go. `Served`: the lookup answers with the order rows and
      the update, when one is sent, goes through. `LookupFailed`: the lookup rejects or its
      reply is not JSON. `NoData`: the lookup answers JSON without a `data` array.
      `PutFailed`: the lookup answers, but the update request rejects. `PutRefused`: the
      lookup answers and the update gets a reply, but a non-OK one (400, 403, 404): the route
      never reads that reply's status, so nothing fails, yet the order is not written. */
  datatype OrderCalls = Served | LookupFailed | NoData | PutFailed | PutRefused

  const PaidStatus := "PAID"
  const CompletedStatus := "completed"

  /** The header check: a missing header never equals the configured token, even when no
      token is configured. */
  predicate Authorized(header: Option<string>, configured: Option<string>) {
    header.Some? && configured.Some? && header.value == configured.value
  }

  // ---------------------------------------------------------------------
  // The pure slices
  // ---------------------------------------------------------------------

  /** The numeric product id an item's category carries: the text between its first and
      second colon, read as a number. A category without a colon, an empty segment or one that
      is not a number contributes nothing. */
  function DecodeCategory(category: Option<string>): (r: Option<nat>)
    ensures r.Some? ==> Truthy(category) && ':' in category.value
    ensures r.Some? ==> var seg := Text.SecondSegment(category.value, ':').value;
      Text.ParseNat(seg) == r
  {
    if Truthy(category) && ':' in category.value then
      var seg := Text.SecondSegment(category.value, ':').value;
      if seg != "" then Text.ParseNat(seg) else None
    else None
  }

  /** `newProductIds`: the decodable ids of the items, in item order. */
  function NewProductIds(items: seq<CallbackItem>): (r: seq<int>)
    ensures |r| <= |items|
  {
    if |items| == 0 then []
    else
      var rest := NewProductIds(items[1..]);
      match DecodeCategory(items[0].category)
      case Some(n) => [n] + rest
      case None => rest
  }

  /** A first item whose category decodes puts its id in front of the rest's new ids. */
  lemma NewProductIdsDecodedHead(items: seq<CallbackItem>, n: nat)
    requires |items| > 0 && DecodeCategory(items[0].category) == Some(n)
    ensures NewProductIds(items) == [n] + NewProductIds(items[1..])
  {
  }

  /** An id is new for a list exactly when the first item decodes to it or it is new for the rest. */
  lemma NewProductIdsHead(items: seq<CallbackItem>)
    requires |items| > 0
    ensures forall n :: n in NewProductIds(items) <==>
      DecodeCategory(items[0].category) == Some(n) || n in NewProductIds(items[1..])
  {
  }

  /** An id is new exactly when some item's category decodes to it. */
  lemma {:induction false} NewProductIdsMembers(items: seq<CallbackItem>)
    ensures forall n :: n in NewProductIds(items) <==>
      exists i :: 0 <= i < |items| && DecodeCategory(items[i].category) == Some(n)
  {
    if |items| > 0 {
      NewProductIdsMembers(items[1..]);
      NewProductIdsHead(items);
      forall n | n in NewProductIds(items)
        ensures exists i :: 0 <= i < |items| && DecodeCategory(items[i].category) == Some(n)
      {
        if DecodeCategory(items[0].category) != Some(n) {
          var j :| 0 <= j < |items[1..]| && DecodeCategory(items[1..][j].category) == Some(n);
          assert items[j + 1] == items[1..][j];
        }
      }
      forall n | exists i :: 0 <= i < |items| && DecodeCategory(items[i].category) == Some(n)
        ensures n in NewProductIds(items)
      {
        var i :| 0 <= i < |items| && DecodeCategory(items[i].category) == Some(n);
        if i > 0 {
          assert items[1..][i - 1] == items[i];
        }
      }
    }
  }

  /** `Array.from(new Set([...existing, ...new]))`: the existing ids, then the new ones, each
      kept at its first occurrence. */
  function MergePurchased(existing: seq<int>, incoming: seq<int>): (r: seq<int>)
    ensures Seqs.NoDup(r)
    ensures forall n :: n in r <==> n in existing || n in incoming
  {
    Seqs.Dedup(existing + incoming)
  }

  /** `const [fileId] = category.split(":")`. */
  function FileIdOf(category: string): (r: string)
    ensures ':' !in r && Text.IsPrefix(r, category)
  {
    Text.BeforeFirst(category, ':')
  }

  function DriveUrl(fileId: string): string {
    "https://drive.google.com/file/d/" + fileId + "/view?usp=sharing"
  }

  /** What the delivery loop produced: the grants issued, the links collected, and whether the
      loop ran to the end (an item with no category makes it throw). */
  datatype Delivery = Delivery(grants: seq<Effect>, links: seq<Link>, completed: bool)

  /** The delivery loop. An item with an empty file id is skipped; every other item issues a
      grant and adds its link, the same link whether the grant succeeds or fails. */
  function Deliver(items: seq<CallbackItem>, email: string): (r: Delivery)
    ensures |r.grants| == |r.links| <= |items|
    ensures forall k :: 0 <= k < |r.links| ==>
      r.grants[k].Grant? && r.grants[k].email == email && r.grants[k].fileId != ""
      && r.links[k].url == DriveUrl(r.grants[k].fileId)
    ensures r.completed <==> forall i :: 0 <= i < |items| ==> items[i].category.Some?
  {
    if |items| == 0 then Delivery([], [], true)
    else if items[0].category.None? then Delivery([], [], false)
    else
      var fileId := FileIdOf(items[0].category.value);
      var rest := Deliver(items[1..], email);
      var completed := rest.completed;
      assert completed <==> forall i :: 0 <= i < |items| ==> items[i].category.Some? by {
        if completed {
          forall i | 0 <= i < |items| ensures items[i].category.Some? {
            if i > 0 { assert items[i] == items[1..][i - 1]; }
          }
        }
        if forall i :: 0 <= i < |items| ==> items[i].category.Some? {
          forall i | 0 <= i < |items[1..]| ensures items[1..][i].category.Some? {
            assert items[1..][i] == items[i + 1];
          }
        }
      }
      if fileId == "" then rest
      else Delivery([Grant(fileId, email)] + rest.grants, [Link(items[0].name, DriveUrl(fileId))] + rest.links,
                    completed)
  }

  /** When every item has a non-empty file id, each one yields exactly its own link, in order. */
  lemma {:induction false} DeliverEveryItem(items: seq<CallbackItem>, email: string)
    requires forall i :: 0 <= i < |items| ==> items[i].category.Some? && FileIdOf(items[i].category.value) != ""
    ensures var d := Deliver(items, email);
      d.completed && |d.links| == |items|
      && forall i :: 0 <= i < |items| ==>
           d.links[i] == Link(items[i].name, DriveUrl(FileIdOf(items[i].category.value)))
  {
    if |items| > 0 {
      DeliverEveryItem(items[1..], email);
      var d := Deliver(items, email);
      forall i | 0 <= i < |items|
        ensures d.links[i] == Link(items[i].name, DriveUrl(FileIdOf(items[i].category.value)))
      {
        if i > 0 { assert items[1..][i - 1] == items[i]; }
      }
    }
  }

  // ---------------------------------------------------------------------
  // The handler
  // ---------------------------------------------------------------------

  /** The update a PAID callback writes to its order. */
  function CompletionPatch(body: Callback): BackOffice.OrderPatch {
    BackOffice.OrderPatch(OrElse(body.id, body.paymentId), CompletedStatus, body.paidAt,
      OrElse(body.paymentChannel, body.paymentMethod))
  }

  /** Step 2: the order whose transaction id is the invoice's external id is looked up and,
      when there is one, the first match is completed. */
  function CompleteOrder(body: Callback, orders: seq<BackOffice.OrderRow>)
    : (r: (seq<Effect>, seq<BackOffice.OrderRow>))
    ensures var found := BackOffice.OrdersWithTransaction(orders, body.externalId);
      && (|found| == 0 ==> r == ([FindOrder(body.externalId)], orders))
      && (|found| > 0 ==>
            r == ([FindOrder(body.externalId), PutOrder(found[0].documentId, CompletionPatch(body))],
                  BackOffice.UpdateOrder(orders, found[0].documentId, CompletionPatch(body))))
  {
    var found := BackOffice.OrdersWithTransaction(orders, body.externalId);
    if |found| > 0 then
      ([FindOrder(body.externalId), PutOrder(found[0].documentId, CompletionPatch(body))],
       BackOffice.UpdateOrder(orders, found[0].documentId, CompletionPatch(body)))
    else ([FindOrder(body.externalId)], orders)
  }

  /** `body.payer_email || searchData.data[0]?.email`. */
  function CustomerEmail(body: Callback, orders: seq<BackOffice.OrderRow>): Option<string> {
    var found := BackOffice.OrdersWithTransaction(orders, body.externalId);
    OrElse(body.payerEmail, if |found| > 0 then found[0].email else None)
  }

  /** Step 3a: the buyer's record is looked up by email and, when found, its `purchased`
      relation becomes the merge of the ids it already resolves to and the ids the items carry. */
  function RecordPurchase(email: string, items: seq<CallbackItem>, users: seq<BackOffice.UserRow>,
                          products: seq<BackOffice.ProductRow>): (r: (seq<Effect>, seq<BackOffice.UserRow>))
    ensures var found := BackOffice.UsersWithEmail(users, email);
      && (|found| == 0 ==> r == ([FindUser(email)], users))
      && (|found| > 0 ==>
            var merged := MergePurchased(StrapiUsers.NumericIds(BackOffice.Populate(found[0], products)),
                                         NewProductIds(items));
            r == ([FindUser(email), PutUser(found[0].id, merged)], BackOffice.UpdatePurchased(users, found[0].id, merged)))
  {
    var found := BackOffice.UsersWithEmail(users, email);
    if |found| > 0 then
      var u := found[0];
      var merged := MergePurchased(StrapiUsers.NumericIds(BackOffice.Populate(u, products)), NewProductIds(items));
      ([FindUser(email), PutUser(u.id, merged)], BackOffice.UpdatePurchased(users, u.id, merged))
    else ([FindUser(email)], users)
  }

  /** Step 3b: with items to deliver, the grants, then the mail when the loop finished and
      produced a link. */
  function DeliveryEffects(email: string, orderId: string, items: seq<CallbackItem>): (r: seq<Effect>)
    ensures forall e :: e in r ==> e.Grant? || e.SendEmail?
    ensures (exists e :: e in r && e.SendEmail?) <==>
      |items| > 0 && Deliver(items, email).completed && |Deliver(items, email).links| > 0
  {
    if |items| == 0 then []
    else
      var d := Deliver(items, email);
      var mail := if d.completed && |d.links| > 0 then [SendEmail(email, orderId, d.links)] else [];
      var r := d.grants + mail;
      assert forall k :: 0 <= k < |d.grants| ==> d.grants[k].Grant?;
      assert d.completed && |d.links| > 0 ==> r[|r| - 1].SendEmail?;
      r
  }

  /** The order step runs outside the delivery's own `try`, so a failure there reaches the
      handler's outer catch: the lookup failed, or the update of a found order did. */
  predicate OrderStepThrows(body: Callback, orders: seq<BackOffice.OrderRow>, calls: OrderCalls) {
    calls.LookupFailed? || (calls.PutFailed? && |BackOffice.OrdersWithTransaction(orders, body.externalId)| > 0)
  }

  /** The buyer email the delivery uses. Without `data` in the lookup's reply, a falsy payer
      email makes `data[0]` throw inside the delivery's `try`, which skips the user update and
      the delivery just as a missing email does. */
  function Customer(body: Callback, orders: seq<BackOffice.OrderRow>, calls: OrderCalls): Option<string> {
    if calls.NoData? then OrElse(body.payerEmail, None) else CustomerEmail(body, orders)
  }

  /** Step 2 as the calls go: the lookup, then the update of the first match when the lookup
      answered with `data` that holds one. The update is sent even when it then fails or is
      refused; only a served update changes the order table. */
  function OrderStep(body: Callback, orders: seq<BackOffice.OrderRow>, calls: OrderCalls)
    : (r: (seq<Effect>, seq<BackOffice.OrderRow>))
    ensures var found := BackOffice.OrdersWithTransaction(orders, body.externalId);
      && (|found| == 0 || calls.LookupFailed? || calls.NoData? ==> r == ([FindOrder(body.externalId)], orders))
      && (|found| > 0 && calls.Served? ==>
            r == ([FindOrder(body.externalId), PutOrder(found[0].documentId, CompletionPatch(body))],
                  BackOffice.UpdateOrder(orders, found[0].documentId, CompletionPatch(body))))
      && (|found| > 0 && (calls.PutFailed? || calls.PutRefused?) ==>
            r == ([FindOrder(body.externalId), PutOrder(found[0].documentId, CompletionPatch(body))], orders))
  {
    if calls.LookupFailed? || calls.NoData? then ([FindOrder(body.externalId)], orders)
    else
      var (orderEffects, updated) := CompleteOrder(body, orders);
      if calls.PutFailed? || calls.PutRefused? then (orderEffects, orders) else (orderEffects, updated)
  }

  /** Step 3 inside its own `try`: for a known buyer email, the purchase list, then the
      delivery. It makes no order call. */
  function DeliveryStep(body: Callback, b: BackOffice.Backend, calls: OrderCalls)
    : (r: (seq<Effect>, seq<BackOffice.UserRow>))
    ensures forall e :: e in r.0 ==> e.FindUser? || e.PutUser? || e.Grant? || e.SendEmail?
    ensures !Truthy(Customer(body, b.orders, calls)) ==> r == ([], b.users)
  {
    var customer := Customer(body, b.orders, calls);
    if !Truthy(customer) then ([], b.users)
    else
      var items := body.items.GetOr([]);
      var (userEffects, users) := RecordPurchase(customer.value, items, b.users, b.products);
      var delivery := DeliveryEffects(customer.value, body.externalId, items);
      assert forall e :: e in userEffects + delivery ==> e in userEffects || e in delivery;
      (userEffects + delivery, users)
  }

  /** Step 3 on the users: with a record under the buyer email, the first one's relation
      becomes the merge; without one, no user is written. */
  lemma DeliveryUsers(body: Callback, b: BackOffice.Backend, calls: OrderCalls)
    requires Truthy(Customer(body, b.orders, calls))
    ensures var r := DeliveryStep(body, b, calls);
      var customer := Customer(body, b.orders, calls);
      && (|BackOffice.UsersWithEmail(b.users, customer.value)| == 0 ==>
            r.1 == b.users && forall e :: e in r.0 ==> !e.PutUser?)
      && (|BackOffice.UsersWithEmail(b.users, customer.value)| > 0 ==>
            (var u := BackOffice.UsersWithEmail(b.users, customer.value)[0];
             var merged := MergePurchased(StrapiUsers.NumericIds(BackOffice.Populate(u, b.products)),
                                          NewProductIds(body.items.GetOr([])));
             && r.1 == BackOffice.UpdatePurchased(b.users, u.id, merged)
             && PutUser(u.id, merged) in r.0))
  {
    var customer := Customer(body, b.orders, calls);
    var items := body.items.GetOr([]);
    var (userEffects, users) := RecordPurchase(customer.value, items, b.users, b.products);
    var delivery := DeliveryEffects(customer.value, body.externalId, items);
    assert DeliveryStep(body, b, calls) == (userEffects + delivery, users);
    assert forall e :: e in userEffects + delivery ==> e in userEffects || e in delivery;
    if |BackOffice.UsersWithEmail(b.users, customer.value)| > 0 {
      assert userEffects[1] in userEffects + delivery;
    }
  }

  /** Step 3's mail goes out exactly when there are items and a buyer email, and the delivery
      loop finished with at least one link. */
  lemma DeliveryMail(body: Callback, b: BackOffice.Backend, calls: OrderCalls)
    ensures var r := DeliveryStep(body, b, calls);
      var items := body.items.GetOr([]);
      var customer := Customer(body, b.orders, calls);
      (exists e :: e in r.0 && e.SendEmail?) <==>
        (&& |items| > 0 && Truthy(customer)
         && Deliver(items, customer.value).completed && |Deliver(items, customer.value).links| > 0)
  {
    var customer := Customer(body, b.orders, calls);
    if Truthy(customer) {
      var items := body.items.GetOr([]);
      var (userEffects, users) := RecordPurchase(customer.value, items, b.users, b.products);
      var delivery := DeliveryEffects(customer.value, body.externalId, items);
      assert DeliveryStep(body, b, calls) == (userEffects + delivery, users);
      assert forall e :: e in userEffects ==> !e.SendEmail?;
      assert forall e :: e in userEffects + delivery ==> e in userEffects || e in delivery;
    }
  }

  /** Steps 2 and 3 for a PAID callback. A failed order call ends the handler with 500 and the
      back office as it was. */
  function ProcessPaid(body: Callback, b: BackOffice.Backend, calls: OrderCalls): (r: Outcome)
  {
    var (orderEffects, orders) := OrderStep(body, b.orders, calls);
    if OrderStepThrows(body, b.orders, calls) then Outcome(500, orderEffects, b)
    else
      var (rest, users) := DeliveryStep(body, b, calls);
      Outcome(200, orderEffects + rest, BackOffice.Backend(orders, users, b.products))
  }

  /** The POST handler. */
  function Handle(header: Option<string>, configured: Option<string>, body: Callback, b: BackOffice.Backend,
                  calls: OrderCalls): (r: Outcome)
    ensures !Authorized(header, configured) ==> r == Outcome(401, [], b)
    ensures Authorized(header, configured) && body.status != Some(PaidStatus) ==> r == Outcome(200, [], b)
    ensures Authorized(header, configured) && body.status == Some(PaidStatus) ==>
      && |r.effects| >= 1 && r.effects[0] == FindOrder(body.externalId)
      && (r.status == 500 <==> OrderStepThrows(body, b.orders, calls))
      && (r.status == 200 <==> !OrderStepThrows(body, b.orders, calls))
    ensures Authorized(header, configured) && body.status == Some(PaidStatus)
            && OrderStepThrows(body, b.orders, calls) ==>
      && r.backend == b
      && forall e :: e in r.effects ==> e.FindOrder? || e.PutOrder?
  {
    if !Authorized(header, configured) then Outcome(401, [], b)
    else if body.status != Some(PaidStatus) then Outcome(200, [], b)
    else ProcessPaid(body, b, calls)
  }

  /** Merging the same new ids into the merge again changes nothing. */
  lemma MergePurchasedIdempotent(existing: seq<int>, incoming: seq<int>)
    ensures MergePurchased(MergePurchased(existing, incoming), incoming) == MergePurchased(existing, incoming)
  {
    Seqs.MergeIdempotent(existing, incoming);
  }

  /** A callback listing files F3 and F8 under their categories names products 3 and 8. */
  lemma DecodeScenario()
    ensures NewProductIds([CallbackItem("a", Some("F3:3")), CallbackItem("b", Some("F8:8"))]) == [3, 8]
  {
    var items := [CallbackItem("a", Some("F3:3")), CallbackItem("b", Some("F8:8"))];
    Text.SplitJoin("F3", ':', "3");
    Text.SplitJoin("F8", ':', "8");
    Text.ParsePrinted(3);
    Text.ParsePrinted(8);
    assert Text.NatToString(3) == "3" && Text.NatToString(8) == "8";
    assert "F3:3" == "F3" + [':'] + "3";
    assert "F8:8" == "F8" + [':'] + "8";
    assert DecodeCategory(Some("F3:3")) == Some(3);
    assert DecodeCategory(Some("F8:8")) == Some(8);
    assert items[1..][1..] == [];
  }

  /** A buyer owning product 3 who pays for products 3 and 8 ends up owning 3 then 8. */
  lemma MergeScenario()
    ensures MergePurchased([3], [3, 8]) == [3, 8]
  {
    var one, eight, both := [3], [8], [3, 8];
    assert both == one + eight;
    assert Seqs.NoDup([] + one) && Seqs.NoDup(one + eight);
    Seqs.DedupFromNoDup([], one);
    Seqs.DedupFromCovered(one, one);
    Seqs.DedupFromNoDup(one, eight);
    Seqs.DedupFromConcat(one, one, eight);
    Seqs.DedupFromConcat([], one, both);
    assert one + both == [3] + [3, 8];
  }

  /** For a PAID callback: when an order carries the external id and the order calls go
      through, the first such order is completed and nothing else in the order table changes;
      when none does, or the lookup failed or had no `data`, no order is written at all. A
      failed or refused update is sent but leaves the table as it was. */
  lemma OrderRule(header: Option<string>, configured: Option<string>, body: Callback, b: BackOffice.Backend,
                  calls: OrderCalls)
    requires Authorized(header, configured) && body.status == Some(PaidStatus)
    ensures var r := Handle(header, configured, body, b, calls);
      var found := BackOffice.OrdersWithTransaction(b.orders, body.externalId);
      && (|found| == 0 || calls.LookupFailed? || calls.NoData? ==>
            r.backend.orders == b.orders && forall e :: e in r.effects ==> !e.PutOrder?)
      && (|found| > 0 && (calls.Served? || calls.PutFailed? || calls.PutRefused?) ==>
            r.effects[1] == PutOrder(found[0].documentId, CompletionPatch(body)))
      && (|found| > 0 && calls.Served? ==>
            r.backend.orders == BackOffice.UpdateOrder(b.orders, found[0].documentId, CompletionPatch(body)))
      && (calls.PutFailed? || calls.PutRefused? ==> r.backend.orders == b.orders)
  {
    var (orderEffects, orders) := OrderStep(body, b.orders, calls);
    if !OrderStepThrows(body, b.orders, calls) {
      var (rest, users) := DeliveryStep(body, b, calls);
      assert Handle(header, configured, body, b, calls) ==
        Outcome(200, orderEffects + rest, BackOffice.Backend(orders, users, b.products));
      NoOrderCallAfter(orderEffects, rest);
    }
  }

  /** The order table the order step computes is the one the handler leaves behind, failures
      included: a thrown order step changes nothing, and neither does its own result. */
  lemma OrderStepIsHandlersTable(header: Option<string>, configured: Option<string>, body: Callback,
                                 b: BackOffice.Backend, calls: OrderCalls)
    requires Authorized(header, configured) && body.status == Some(PaidStatus)
    ensures Handle(header, configured, body, b, calls).backend.orders == OrderStep(body, b.orders, calls).1
  {
    OrderRule(header, configured, body, b, calls);
  }

  /** Appending calls that are not order calls keeps the order calls where they were. */
  lemma NoOrderCallAfter(orderEffects: seq<Effect>, rest: seq<Effect>)
    requires forall e :: e in rest ==> e.FindUser? || e.PutUser? || e.Grant? || e.SendEmail?
    ensures forall e :: e in orderEffects + rest && e.PutOrder? ==> e in orderEffects
    ensures forall k :: 0 <= k < |orderEffects| ==> (orderEffects + rest)[k] == orderEffects[k]
  {
    assert forall e :: e in orderEffects + rest ==> e in orderEffects || e in rest;
  }

  /** For a PAID callback whose order step did not fail: with a buyer email and a user record
      under it, the first such record's `purchased` relation becomes the merge of the ids it
      resolved to and the ids the items carry; without a buyer email, or without a record, no
      user is written. A failed order step writes no user either. The product table is never
      touched. */
  lemma PurchaseRule(header: Option<string>, configured: Option<string>, body: Callback, b: BackOffice.Backend,
                     calls: OrderCalls)
    requires Authorized(header, configured) && body.status == Some(PaidStatus)
    ensures var r := Handle(header, configured, body, b, calls);
      var customer := Customer(body, b.orders, calls);
      var quiet := OrderStepThrows(body, b.orders, calls) || !Truthy(customer);
      && r.backend.products == b.products
      && (quiet ==> r.backend.users == b.users && forall e :: e in r.effects ==> !e.PutUser?)
      && (!quiet && |BackOffice.UsersWithEmail(b.users, customer.value)| == 0 ==>
            r.backend.users == b.users && forall e :: e in r.effects ==> !e.PutUser?)
      && (!quiet && |BackOffice.UsersWithEmail(b.users, customer.value)| > 0 ==>
            (var u := BackOffice.UsersWithEmail(b.users, customer.value)[0];
             var merged := MergePurchased(StrapiUsers.NumericIds(BackOffice.Populate(u, b.products)),
                                          NewProductIds(body.items.GetOr([])));
             && r.backend.users == BackOffice.UpdatePurchased(b.users, u.id, merged)
             && PutUser(u.id, merged) in r.effects))
  {
    var customer := Customer(body, b.orders, calls);
    var (orderEffects, orders) := OrderStep(body, b.orders, calls);
    assert forall e :: e in orderEffects ==> !e.PutUser?;
    if !OrderStepThrows(body, b.orders, calls) {
      var (rest, users) := DeliveryStep(body, b, calls);
      assert Handle(header, configured, body, b, calls) ==
        Outcome(200, orderEffects + rest, BackOffice.Backend(orders, users, b.products));
      assert forall e :: e in orderEffects + rest ==> e in orderEffects || e in rest;
      assert forall e :: e in rest ==> e in orderEffects + rest;
      if Truthy(customer) {
        DeliveryUsers(body, b, calls);
      }
    }
  }

  /** The mail goes out exactly when the order step did not fail, the callback listed items, a
      buyer email is known, the delivery loop finished and built at least one link. */
  lemma MailRule(header: Option<string>, configured: Option<string>, body: Callback, b: BackOffice.Backend,
                 calls: OrderCalls)
    requires Authorized(header, configured) && body.status == Some(PaidStatus)
    ensures var r := Handle(header, configured, body, b, calls);
      var items := body.items.GetOr([]);
      var customer := Customer(body, b.orders, calls);
      (exists e :: e in r.effects && e.SendEmail?) <==>
        (&& !OrderStepThrows(body, b.orders, calls) && |items| > 0 && Truthy(customer)
         && Deliver(items, customer.value).completed && |Deliver(items, customer.value).links| > 0)
  {
    var (orderEffects, orders) := OrderStep(body, b.orders, calls);
    assert forall e :: e in orderEffects ==> !e.SendEmail?;
    if !OrderStepThrows(body, b.orders, calls) {
      var (rest, users) := DeliveryStep(body, b, calls);
      assert Handle(header, configured, body, b, calls).effects == orderEffects + rest;
      assert forall e :: e in orderEffects + rest ==> e in orderEffects || e in rest;
      assert forall e :: e in rest ==> e in orderEffects + rest;
      DeliveryMail(body, b, calls);
    }
  }

  /** The order update replaces the transaction id with the provider's payment id, so after a
      delivery whose order calls went through, a redelivery of the same callback no longer
      finds the order by its external id and writes no order, however its own calls go, when
      the external id was carried by one order only and the payment id differs from it. */
  lemma RedeliveryFindsNoOrder(header: Option<string>, configured: Option<string>, body: Callback,
                               b: BackOffice.Backend, calls: OrderCalls)
    requires Authorized(header, configured) && body.status == Some(PaidStatus)
    requires Truthy(body.id) && body.id.value != body.externalId
    requires |BackOffice.OrdersWithTransaction(b.orders, body.externalId)| == 1
    ensures var first := Handle(header, configured, body, b, Served);
      var second := Handle(header, configured, body, first.backend, calls);
      && BackOffice.OrdersWithTransaction(first.backend.orders, body.externalId) == []
      && (forall e :: e in second.effects ==> !e.PutOrder?)
      && second.backend.orders == first.backend.orders
  {
    var found := BackOffice.OrdersWithTransaction(b.orders, body.externalId);
    var patch := CompletionPatch(body);
    var first := Handle(header, configured, body, b, Served);
    assert first.backend.orders == BackOffice.UpdateOrder(b.orders, found[0].documentId, patch) by {
      OrderRule(header, configured, body, b, Served);
    }
    BackOffice.UpdateClearsTransaction(b.orders, body.externalId, patch);
    OrderRule(header, configured, body, first.backend, calls);
  }

  /** A refused order update fails nothing: the handler answers 200 and runs the delivery, but
      the order stays as it was, so a redelivery of the same callback finds it again and, when
      its update goes through, completes it. */
  lemma RefusedUpdateLeavesOrderPending(header: Option<string>, configured: Option<string>, body: Callback,
                                        b: BackOffice.Backend)
    requires Authorized(header, configured) && body.status == Some(PaidStatus)
    requires |BackOffice.OrdersWithTransaction(b.orders, body.externalId)| > 0
    ensures var found := BackOffice.OrdersWithTransaction(b.orders, body.externalId);
      var first := Handle(header, configured, body, b, PutRefused);
      var second := Handle(header, configured, body, first.backend, Served);
      && first.status == 200
      && first.effects[1] == PutOrder(found[0].documentId, CompletionPatch(body))
      && first.backend.orders == b.orders
      && BackOffice.OrdersWithTransaction(first.backend.orders, body.externalId) == found
      && second.effects[1] == PutOrder(found[0].documentId, CompletionPatch(body))
      && second.backend.orders == BackOffice.UpdateOrder(b.orders, found[0].documentId, CompletionPatch(body))
  {
    var first := Handle(header, configured, body, b, PutRefused);
    OrderRule(header, configured, body, b, PutRefused);
    OrderRule(header, configured, body, first.backend, Served);
  }
}

/** The content back office as the server routes see it: orders found by
    transaction id and updated by document id, users found by email and
    updated by numeric id, and products whose numeric ids the users'
    `purchased` relation refers to. A read of a user with `purchased`
    populated resolves each stored id to its product entry. */
module BackOffice {
  import opened Wrappers
  import Seqs
  import StrapiUsers

  datatype OrderRow = OrderRow(
    documentId: string,
    transactionId: string,
    orderStatus: string,
    email: Option<string>,
    paidAt: Option<string>,
    paymentMethod: Option<string>)

  datatype UserRow = UserRow(id: int, email: string, clerkId: string, blocked: Option<bool>, purchased: seq<int>)

  datatype ProductRow = ProductRow(id: int, productId: string)

  datatype Backend = Backend(orders: seq<OrderRow>, users: seq<UserRow>, products: seq<ProductRow>)

  function HasTransaction(txn: string): OrderRow -> bool {
    (o: OrderRow) => o.transactionId == txn
  }

  /** `orders?filters[transactionId][$eq]=txn`, in store order. */
  function OrdersWithTransaction(orders: seq<OrderRow>, txn: string): (r: seq<OrderRow>)
    ensures forall o :: o in r <==> o in orders && o.transactionId == txn
  {
    Seqs.Filter(orders, HasTransaction(txn))
  }

  function HasEmail(email: string): UserRow -> bool {
    (u: UserRow) => u.email == email
  }

  /** `users?filters[email][$eq]=email`, in store order. */
  function UsersWithEmail(users: seq<UserRow>, email: string): (r: seq<UserRow>)
    ensures forall u :: u in r <==> u in users && u.email == email
  {
    Seqs.Filter(users, HasEmail(email))
  }

  /** The fields an order update writes; an absent field is left as it was. */
  datatype OrderPatch = OrderPatch(transactionId: Option<string>, orderStatus: string, paidAt: Option<string>,
                                   paymentMethod: Option<string>)

  function Patched(o: OrderRow, p: OrderPatch): OrderRow {
    OrderRow(o.documentId, p.transactionId.GetOr(o.transactionId), p.orderStatus, o.email,
      Overwrite(p.paidAt, o.paidAt), Overwrite(p.paymentMethod, o.paymentMethod))
  }

  /** A field sent in the update replaces the stored one; a field left undefined is not sent. */
  function Overwrite(given: Option<string>, current: Option<string>): Option<string> {
    if given.Some? then given else current
  }

  /** `PUT orders/documentId`: every row with that document id takes the patch. */
  function UpdateOrder(orders: seq<OrderRow>, documentId: string, p: OrderPatch): (r: seq<OrderRow>)
    ensures |r| == |orders|
    ensures forall i :: 0 <= i < |orders| ==>
      r[i] == if orders[i].documentId == documentId then Patched(orders[i], p) else orders[i]
  {
    seq(|orders|, i requires 0 <= i < |orders| =>
      if orders[i].documentId == documentId then Patched(orders[i], p) else orders[i])
  }

  /** When one order alone carries a transaction id, giving its document a different
      transaction id leaves no order carrying the old one. */
  lemma UpdateClearsTransaction(orders: seq<OrderRow>, txn: string, p: OrderPatch)
    requires |OrdersWithTransaction(orders, txn)| == 1
    requires p.transactionId.Some? && p.transactionId.value != txn
    ensures OrdersWithTransaction(UpdateOrder(orders, OrdersWithTransaction(orders, txn)[0].documentId, p), txn) == []
  {
    var found := OrdersWithTransaction(orders, txn);
    var updated := UpdateOrder(orders, found[0].documentId, p);
    forall i | 0 <= i < |updated| ensures !HasTransaction(txn)(updated[i]) {
      if orders[i].documentId != found[0].documentId {
        assert orders[i] in orders;
      }
    }
    Seqs.FilterKeepsNone(updated, HasTransaction(txn));
  }

  /** `PUT users/id` with a new `purchased` relation. */
  function UpdatePurchased(users: seq<UserRow>, id: int, purchased: seq<int>): (r: seq<UserRow>)
    ensures |r| == |users|
    ensures forall i :: 0 <= i < |users| ==>
      r[i] == if users[i].id == id then users[i].(purchased := purchased) else users[i]
  {
    seq(|users|, i requires 0 <= i < |users| =>
      if users[i].id == id then users[i].(purchased := purchased) else users[i])
  }

  /** The product a numeric id refers to, the first if several share it. */
  function ProductById(products: seq<ProductRow>, id: int): (r: Option<ProductRow>)
    ensures r.Some? ==> r.value in products && r.value.id == id
    ensures r.None? <==> forall p :: p in products ==> p.id != id
  {
    if |products| == 0 then None
    else if products[0].id == id then Some(products[0])
    else ProductById(products[1..], id)
  }

  /** The populated `purchased` relation: each stored id that refers to a product, as that
      product's entry, in stored order. */
  function PopulateIds(ids: seq<int>, products: seq<ProductRow>): (r: seq<StrapiUsers.PurchasedEntry>)
    ensures |r| <= |ids|
  {
    if |ids| == 0 then []
    else
      var rest := PopulateIds(ids[1..], products);
      match ProductById(products, ids[0])
      case Some(p) => [StrapiUsers.PurchasedEntry(p.id, p.productId)] + rest
      case None => rest
  }

  /** A stored id that refers to a product shows up in the populated relation with that
      product's file id; nothing else does. */
  lemma {:induction false} PopulateIdsMembers(ids: seq<int>, products: seq<ProductRow>)
    ensures forall e :: e in PopulateIds(ids, products) <==>
      e.id in ids && ProductById(products, e.id) == Some(ProductRow(e.id, e.productId))
  {
    if |ids| > 0 {
      PopulateIdsMembers(ids[1..], products);
      assert ids == [ids[0]] + ids[1..];
    }
  }

  /** A user as `users.find({ populate: purchased })` returns them. */
  function Populate(u: UserRow, products: seq<ProductRow>): (r: StrapiUsers.UserRecord)
    ensures r.id == u.id && r.email == u.email && r.clerkId == u.clerkId && r.blocked == u.blocked
    ensures r.purchased == Some(PopulateIds(u.purchased, products))
  {
    StrapiUsers.UserRecord(u.id, u.email, u.clerkId, u.blocked, Some(PopulateIds(u.purchased, products)))
  }
}

/** The order history page (`src/routes/_authed/orders.tsx`): a search over
    the stored orders by id or transaction reference, the "completed" badge,
    the empty state, and the amount column converted with the selected rate. */
module OrdersView {
  import opened Wrappers
  import Seqs
  import Text

  /** The fields of a stored order that the page reads. */
  datatype Order = Order(
    id: int,
    orderAmount: real,
    orderStatus: Option<string>,
    paymentMethod: string,
    transactionId: Option<string>)

  /** The page's filter for one order: the decimal id contains the lower-cased search, or the
      lower-cased transaction reference equals it. */
  predicate Matches(o: Order, search: string) {
    var needle := Text.Lower(search);
    Text.Includes(Text.IntToString(o.id), needle)
    || (o.transactionId.Some? && Text.Lower(o.transactionId.value) == needle)
  }

  function MatchesFor(search: string): Order -> bool {
    (o: Order) => Matches(o, search)
  }

  /** `displayedOrders`. */
  function DisplayedOrders(orders: seq<Order>, search: string): (r: seq<Order>)
    ensures forall o :: o in r <==> o in orders && Matches(o, search)
    ensures Seqs.Subsequence(r, orders)
  {
    Seqs.FilterSubsequence(orders, MatchesFor(search));
    Seqs.Filter(orders, MatchesFor(search))
  }

  /** The empty search matches every order. */
  lemma EmptySearchShowsAll(orders: seq<Order>)
    ensures DisplayedOrders(orders, "") == orders
  {
    forall i | 0 <= i < |orders| ensures MatchesFor("")(orders[i]) {
      Text.IncludesEmpty(Text.IntToString(orders[i].id));
    }
    Seqs.FilterKeepsAll(orders, MatchesFor(""));
  }

  /** The decimal form of an id is unchanged by lower-casing. */
  lemma LowerOfIdString(i: int)
    ensures Text.Lower(Text.IntToString(i)) == Text.IntToString(i)
  {
    var s := Text.IntToString(i);
    assert forall k :: 0 <= k < |s| ==> s[k] == '-' || Text.IsDigit(s[k]);
  }

  /** Typing an order's id finds it. */
  lemma SearchById(orders: seq<Order>, o: Order)
    requires o in orders
    ensures o in DisplayedOrders(orders, Text.IntToString(o.id))
  {
    var s := Text.IntToString(o.id);
    LowerOfIdString(o.id);
    assert Text.IsPrefix(s, s);
  }

  /** Typing an order's transaction reference in any letter case finds it. */
  lemma SearchByTransaction(orders: seq<Order>, o: Order, search: string)
    requires o in orders && o.transactionId.Some?
    requires Text.Lower(search) == Text.Lower(o.transactionId.value)
    ensures o in DisplayedOrders(orders, search)
  {
  }

  /** The reference is compared whole, not searched inside: a proper part of a reference finds
      nothing through it. Here "txn-1" neither equals "txn-12" nor occurs in the id "7". */
  lemma TransactionIsExactMatch()
    ensures var o := Order(7, 100.0, Some("completed"), "EWALLET", Some("txn-12"));
      !Matches(o, "txn-1")
  {
    var o := Order(7, 100.0, Some("completed"), "EWALLET", Some("txn-12"));
    assert Text.IntToString(7) == "7";
    assert Text.Lower("txn-1") == "txn-1";
    assert |Text.Lower("txn-12")| == 6;
    assert !Text.IsPrefix("txn-1", "7");
    assert !Text.IsPrefix("txn-1", "");
  }

  /** `StatusBadge`: "completed" in any letter case; an absent status is not completed. */
  predicate IsCompleted(status: Option<string>) {
    status.Some? && Text.Lower(status.value) == "completed"
  }

  lemma CompletedBadge(status: string)
    ensures IsCompleted(Some(status)) <==>
      (|status| == 9 && forall k :: 0 <= k < 9 ==> Text.LowerChar(status[k]) == "completed"[k])
    ensures !IsCompleted(None)
  {
    if |status| == 9 && forall k :: 0 <= k < 9 ==> Text.LowerChar(status[k]) == "completed"[k] {
      assert Text.Lower(status) == "completed";
    }
  }

  datatype Page = EmptyHistory | OrderList(shown: seq<Order>)

  /** With no stored orders the empty state shows, whatever the search; otherwise the filtered
      list does, which may itself be empty. */
  function Render(orders: seq<Order>, search: string): (r: Page)
    ensures r.EmptyHistory? <==> |orders| == 0
    ensures r.OrderList? ==> r.shown == DisplayedOrders(orders, search)
  {
    if |orders| == 0 then EmptyHistory else OrderList(DisplayedOrders(orders, search))
  }

  /** `formatPrice(order.orderAmount)`: the stored amount times the selected rate. */
  function ShownAmount(o: Order, rate: real): real {
    o.orderAmount * rate
  }

  /** An order placed in a currency stores the already converted amount, so the figure the
      page shows in that same currency is the canonical total times the rate twice, and
      differs from what was charged unless the rate is 0 or 1 or the total is 0. */
  lemma ShownAmountConvertsTwice(o: Order, canonical: real, rate: real)
    requires o.orderAmount == canonical * rate
    ensures ShownAmount(o, rate) == canonical * rate * rate
    ensures ShownAmount(o, rate) == o.orderAmount <==> rate == 0.0 || rate == 1.0 || canonical == 0.0
  {
    if ShownAmount(o, rate) == o.orderAmount && rate != 0.0 && canonical != 0.0 {
      assert canonical * rate * (rate - 1.0) == 0.0;
      assert rate - 1.0 == 0.0;
    }
  }
}

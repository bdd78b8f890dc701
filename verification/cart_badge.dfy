/** The floating cart badge (`src/components/CartBadge.tsx`): the number of
    units in the cart, shown only when it is not zero. */
module CartBadge {
  import opened CartStore
  import Seqs

  function Quantity(item: CartItem): int {
    item.quantity
  }

  /** `items.reduce((acc, item) => acc + item.quantity, 0)`. */
  function TotalItems(items: seq<CartItem>): int {
    Seqs.SumInt(items, Quantity)
  }

  /** The badge renders unless the total is zero. */
  predicate Visible(items: seq<CartItem>) {
    TotalItems(items) != 0
  }

  /** With positive quantities the count is at least the number of lines, and exactly that
      number when every line holds one unit. */
  lemma {:induction false} TotalAtLeastLines(items: seq<CartItem>)
    requires PositiveQuantities(items)
    ensures TotalItems(items) >= |items|
    ensures (forall i :: 0 <= i < |items| ==> items[i].quantity == 1) ==> TotalItems(items) == |items|
  {
    if |items| > 0 {
      TotalAtLeastLines(items[1..]);
    }
  }

  /** For a cart the store can produce, the badge shows exactly when the cart has lines. */
  lemma VisibleIffNonEmpty(items: seq<CartItem>)
    requires PositiveQuantities(items)
    ensures Visible(items) <==> |items| > 0
  {
    TotalAtLeastLines(items);
  }

  /** The count does not depend on the order of the lines. */
  lemma TotalReorder(a: seq<CartItem>, b: seq<CartItem>)
    requires multiset(a) == multiset(b)
    ensures TotalItems(a) == TotalItems(b)
  {
    Seqs.SumIntPermutation(a, b, Quantity);
  }

  /** Adding a new product adds one unit; a digital product already held adds none; a
      physical product already held, in a cart with one line per product, adds one unit. */
  lemma TotalAddItem(s: CartState, p: ProductStore.Product)
    ensures !HasLine(s.items, p.productId) ==> TotalItems(AddItem(s, p).items) == TotalItems(s.items) + 1
    ensures HasLine(s.items, p.productId) && p.isDigital ==> TotalItems(AddItem(s, p).items) == TotalItems(s.items)
    ensures OneLinePerProduct(s.items) && HasLine(s.items, p.productId) && !p.isDigital ==>
      TotalItems(AddItem(s, p).items) == TotalItems(s.items) + 1
  {
    if !HasLine(s.items, p.productId) {
      Seqs.SumIntConcat(s.items, [CartItem(p, 1)], Quantity);
    } else if OneLinePerProduct(s.items) && !p.isDigital {
      var i :| 0 <= i < |s.items| && LineKey(s.items[i]) == p.productId;
      TotalBump(s, p, i);
    }
  }

  /** Bumping line `i` adds one unit to the count. */
  lemma TotalBump(s: CartState, p: ProductStore.Product, i: int)
    requires OneLinePerProduct(s.items) && !p.isDigital
    requires 0 <= i < |s.items| && s.items[i].product.productId == p.productId
    ensures TotalItems(AddItem(s, p).items) == TotalItems(s.items) + 1
  {
    AddHeldSplice(s, p, i);
    TotalSplice(s.items, i);
  }

  /** One more unit on line `i` is one more unit in the count. */
  lemma TotalSplice(items: seq<CartItem>, i: int)
    requires 0 <= i < |items|
    ensures TotalItems(items[..i] + [Bump(items[i])] + items[i + 1..]) == TotalItems(items) + 1
  {
    var before, after := items[..i], items[i + 1..];
    assert items == before + [items[i]] + after;
    Seqs.SumIntSplice(before, items[i], after, Quantity);
    Seqs.SumIntSplice(before, Bump(items[i]), after, Quantity);
  }

  /** Clearing the cart hides the badge. */
  lemma ClearHides(s: CartState)
    ensures !Visible(ClearCart(s).items)
  {
  }
}

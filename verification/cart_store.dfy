/** The cart ledger (`src/lib/cart-store.ts`): the lines of the cart, one per
    product, each a product snapshot plus a quantity, and whether the cart
    panel is open. Digital products may sit in the cart at most once.

    Besides the actions themselves this module gives the ledger an abstract
    reading, `Lines`: the map from product id to its line. The lemmas at the
    end state each action as an update of that map and prove the three
    invariants of the ledger preserved. */
module CartStore {
  import opened ProductStore
  import opened Wrappers
  import Seqs
  import Keyed

  /** `CartItem extends Product { quantity }`. */
  datatype CartItem = CartItem(product: Product, quantity: int)

  datatype CartState = CartState(items: seq<CartItem>, isOpen: bool)

  const Initial := CartState([], false)

  function LineKey(item: CartItem): string {
    item.product.productId
  }

  /** Some line of `items` is for product `productId`. */
  predicate HasLine(items: seq<CartItem>, productId: string) {
    Keyed.HasKey(items, LineKey, productId)
  }

  /** The abstract ledger: product id to the (first) line for it. */
  function Lines(items: seq<CartItem>): map<string, CartItem> {
    Keyed.Index(items, LineKey)
  }

  // ---------------------------------------------------------------------
  // Invariants
  // ---------------------------------------------------------------------

  /** No two lines are for the same product. */
  predicate OneLinePerProduct(items: seq<CartItem>) {
    Keyed.UniqueKeys(items, LineKey)
  }

  predicate PositiveQuantities(items: seq<CartItem>) {
    forall i :: 0 <= i < |items| ==> items[i].quantity >= 1
  }

  predicate DigitalSingletons(items: seq<CartItem>) {
    forall i :: 0 <= i < |items| && items[i].product.isDigital ==> items[i].quantity == 1
  }

  predicate WellFormed(items: seq<CartItem>) {
    OneLinePerProduct(items) && PositiveQuantities(items) && DigitalSingletons(items)
  }

  // ---------------------------------------------------------------------
  // Actions
  // ---------------------------------------------------------------------

  function Bump(item: CartItem): CartItem {
    item.(quantity := item.quantity + 1)
  }

  /** `addItem(product)`: a product not yet in the cart gets a new last line with quantity 1;
      a digital product already in the cart changes nothing; a physical one already in the
      cart has its line's quantity raised by one. */
  function AddItem(s: CartState, p: Product): (r: CartState)
    ensures !HasLine(s.items, p.productId) ==> r == s.(items := s.items + [CartItem(p, 1)])
    ensures HasLine(s.items, p.productId) && p.isDigital ==> r == s
    ensures HasLine(s.items, p.productId) && !p.isDigital ==>
      && r.isOpen == s.isOpen
      && |r.items| == |s.items|
      && (forall i :: 0 <= i < |s.items| && s.items[i].product.productId == p.productId ==>
            r.items[i] == s.items[i].(quantity := s.items[i].quantity + 1))
      && (forall i :: 0 <= i < |s.items| && s.items[i].product.productId != p.productId ==>
            r.items[i] == s.items[i])
  {
    if HasLine(s.items, p.productId) then
      if p.isDigital then s
      else s.(items := Keyed.UpdateWhere(s.items, p.productId, LineKey, Bump))
    else
      s.(items := s.items + [CartItem(p, 1)])
  }

  /** In a cart with one line per product, adding a physical product it holds at line `i`
      bumps that line and leaves the lines before and after it in place. */
  lemma AddHeldSplice(s: CartState, p: Product, i: int)
    requires OneLinePerProduct(s.items) && !p.isDigital
    requires 0 <= i < |s.items| && s.items[i].product.productId == p.productId
    ensures AddItem(s, p).items == s.items[..i] + [Bump(s.items[i])] + s.items[i + 1..]
  {
    assert LineKey(s.items[i]) == p.productId;
    var r := AddItem(s, p).items;
    var spliced := s.items[..i] + [Bump(s.items[i])] + s.items[i + 1..];
    forall j | 0 <= j < |r| ensures r[j] == spliced[j] {
      if j != i {
        assert s.items[j].product.productId != p.productId by {
          assert LineKey(s.items[j]) != LineKey(s.items[i]);
        }
      }
    }
  }

  /** The `removeItem` filter: lines for other products. */
  function NotFor(productId: string): CartItem -> bool {
    (it: CartItem) => it.product.productId != productId
  }

  /** `removeItem(productId)`: every line for the product goes; the others stay, in order. */
  function RemoveItem(s: CartState, productId: string): (r: CartState)
    ensures !HasLine(r.items, productId)
    ensures forall it :: it in r.items <==> it in s.items && it.product.productId != productId
    ensures Seqs.Subsequence(r.items, s.items)
    ensures r.isOpen == s.isOpen
  {
    var r := s.(items := Seqs.Filter(s.items, NotFor(productId)));
    Seqs.FilterSubsequence(s.items, NotFor(productId));
    forall i | 0 <= i < |r.items| ensures r.items[i].product.productId != productId {
      assert r.items[i] in r.items;
    }
    r
  }

  /** The per-line step of `updateQuantity`: a positive change to a digital line is refused;
      otherwise the quantity moves by `amount`, but not below zero. */
  function Adjust(item: CartItem, amount: int): (r: CartItem)
    ensures r.product == item.product
    ensures item.product.isDigital && amount > 0 ==> r == item
    ensures !(item.product.isDigital && amount > 0) ==>
      r.quantity >= 0 && r.quantity >= item.quantity + amount
      && (r.quantity == 0 || r.quantity == item.quantity + amount)
  {
    if item.product.isDigital && amount > 0 then item
    else item.(quantity := if item.quantity + amount > 0 then item.quantity + amount else 0)
  }

  function AdjustBy(amount: int): CartItem -> CartItem {
    (it: CartItem) => Adjust(it, amount)
  }

  /** The `updateQuantity` clean-up filter. */
  function Positive(it: CartItem): bool {
    it.quantity > 0
  }

  /** `updateQuantity(productId, amount)`: the lines for the product are adjusted, then every
      line whose quantity is no longer positive is dropped, whatever product it is for. */
  function UpdateQuantity(s: CartState, productId: string, amount: int): (r: CartState)
    ensures forall i :: 0 <= i < |r.items| ==> r.items[i].quantity > 0
    ensures forall it: CartItem :: it.product.productId != productId ==>
      (it in r.items <==> it in s.items && it.quantity > 0)
    ensures r.isOpen == s.isOpen
  {
    var adjusted := Keyed.UpdateWhere(s.items, productId, LineKey, AdjustBy(amount));
    var r := s.(items := Seqs.Filter(adjusted, Positive));
    Keyed.UpdateWhereOthers(s.items, productId, LineKey, AdjustBy(amount));
    forall i | 0 <= i < |r.items| ensures r.items[i].quantity > 0 {
      assert r.items[i] in r.items;
    }
    r
  }

  /** `setIsOpen(isOpen)`: only the panel flag changes. */
  function SetIsOpen(s: CartState, isOpen: bool): (r: CartState)
    ensures r.items == s.items && r.isOpen == isOpen
  {
    s.(isOpen := isOpen)
  }

  /** `clearCart()`: no lines are left; the panel flag is kept. */
  function ClearCart(s: CartState): (r: CartState)
    ensures r.items == [] && r.isOpen == s.isOpen
  {
    s.(items := [])
  }

  // ---------------------------------------------------------------------
  // The actions read on the abstract ledger
  // ---------------------------------------------------------------------

  lemma LinesKeys(items: seq<CartItem>)
    ensures forall k :: k in Lines(items) <==> HasLine(items, k)
    ensures forall k :: k in Lines(items) ==> Lines(items)[k].product.productId == k && Lines(items)[k] in items
  {
    Keyed.IndexKeys(items, LineKey);
    Keyed.IndexEntries(items, LineKey);
  }

  /** `addItem` on the ledger: a new product gets quantity 1; a digital product already
      present is left as it is; a physical one already present gains one. */
  lemma AddItemLines(s: CartState, p: Product)
    ensures var before := Lines(s.items);
      var after := Lines(AddItem(s, p).items);
      var k := p.productId;
      && (k !in before ==> after == before[k := CartItem(p, 1)])
      && (k in before && p.isDigital ==> after == before)
      && (k in before && !p.isDigital ==> after == before[k := Bump(before[k])])
  {
    LinesKeys(s.items);
    if !HasLine(s.items, p.productId) {
      Keyed.IndexAppend(s.items, CartItem(p, 1), LineKey);
    } else if !p.isDigital {
      Keyed.IndexUpdate(s.items, p.productId, LineKey, Bump);
    }
  }

  /** `removeItem` on the ledger: the product's entry is deleted, every other entry kept. */
  lemma RemoveItemLines(s: CartState, productId: string)
    requires OneLinePerProduct(s.items)
    ensures Lines(RemoveItem(s, productId).items) == Lines(s.items) - {productId}
  {
    Keyed.IndexFilter(s.items, LineKey, NotFor(productId));
    LinesKeys(s.items);
    Keyed.PassingOthers(Lines(s.items), productId, LineKey, NotFor(productId));
  }

  /** `updateQuantity` on a ledger of positive quantities: an absent product or a positive
      change to a digital line leaves the ledger alone; otherwise the entry takes the new
      quantity, or is deleted when that quantity is not positive. */
  lemma UpdateQuantityLines(s: CartState, productId: string, amount: int)
    requires OneLinePerProduct(s.items) && PositiveQuantities(s.items)
    ensures var before := Lines(s.items);
      var after := Lines(UpdateQuantity(s, productId, amount).items);
      && (productId !in before ==> after == before)
      && (productId in before && before[productId].product.isDigital && amount > 0 ==> after == before)
      && (productId in before && !(before[productId].product.isDigital && amount > 0) ==>
            var q := before[productId].quantity + amount;
            after == if q > 0 then before[productId := before[productId].(quantity := q)]
                     else before - {productId})
  {
    var f := AdjustBy(amount);
    var adjusted := Keyed.UpdateWhere(s.items, productId, LineKey, f);
    var before := Lines(s.items);
    var mid := Lines(adjusted);
    var after := Lines(UpdateQuantity(s, productId, amount).items);
    assert after == Keyed.Passing(mid, Positive) by {
      Keyed.UpdatePreservesUnique(s.items, productId, LineKey, f);
      Keyed.IndexFilter(adjusted, LineKey, Positive);
    }
    assert mid == if productId in before then before[productId := f(before[productId])] else before by {
      Keyed.IndexUpdate(s.items, productId, LineKey, f);
    }
    assert forall k :: k in before ==> before[k].quantity > 0 by {
      LinesKeys(s.items);
    }
    if productId in before {
      assert f(before[productId]) == Adjust(before[productId], amount);
    }
    AdjustLedger(before, productId, amount, mid, after);
  }

  /** The map step behind `UpdateQuantityLines`. */
  lemma AdjustLedger(before: map<string, CartItem>, k: string, amount: int,
                     mid: map<string, CartItem>, after: map<string, CartItem>)
    requires forall j :: j in before ==> before[j].quantity > 0
    requires mid == if k in before then before[k := Adjust(before[k], amount)] else before
    requires after == Keyed.Passing(mid, Positive)
    ensures k !in before ==> after == before
    ensures k in before && before[k].product.isDigital && amount > 0 ==> after == before
    ensures k in before && !(before[k].product.isDigital && amount > 0) ==>
      var q := before[k].quantity + amount;
      after == if q > 0 then before[k := before[k].(quantity := q)] else before - {k}
  {
    if k !in before {
      Keyed.PassingAll(before, Positive);
    } else {
      var y := Adjust(before[k], amount);
      Keyed.PassingUpdate(before, k, y, Positive);
      if before[k].product.isDigital && amount > 0 {
        assert before[k := y] == before;
        Keyed.PassingAll(before, Positive);
      }
    }
  }

  // ---------------------------------------------------------------------
  // Invariants are preserved
  // ---------------------------------------------------------------------

  /** The product passed to `addItem` agrees on `isDigital` with the line already held for
      it, if any. `addItem` tests the argument's flag and `updateQuantity` the stored line's. */
  predicate AgreesWithCart(items: seq<CartItem>, p: Product) {
    forall i :: 0 <= i < |items| && items[i].product.productId == p.productId ==>
      items[i].product.isDigital == p.isDigital
  }

  lemma AddItemWellFormed(s: CartState, p: Product)
    requires WellFormed(s.items)
    requires AgreesWithCart(s.items, p)
    ensures WellFormed(AddItem(s, p).items)
  {
    var r := AddItem(s, p);
    if !HasLine(s.items, p.productId) {
      forall i, j | 0 <= i < j < |r.items|
        ensures r.items[i].product.productId != r.items[j].product.productId
      {
        if j == |s.items| {
          assert r.items[i] == s.items[i];
        }
      }
    }
  }

  /** Without that agreement the digital rule can be broken: a physical copy of a product
      whose digital line is already in the cart raises that line to 2. */
  lemma AddItemDisagreeingFlag()
    ensures var d := Product(7, "ebook", 20.0, "sub", "F1", "", "", true, None);
      var s := CartState([CartItem(d, 1)], false);
      WellFormed(s.items) && !DigitalSingletons(AddItem(s, d.(isDigital := false)).items)
  {
    var d := Product(7, "ebook", 20.0, "sub", "F1", "", "", true, None);
    var s := CartState([CartItem(d, 1)], false);
    assert HasLine(s.items, "F1") by { assert s.items[0].product.productId == "F1"; }
    var r := AddItem(s, d.(isDigital := false));
    assert r.items[0] == CartItem(d, 2);
  }

  lemma RemoveItemWellFormed(s: CartState, productId: string)
    requires WellFormed(s.items)
    ensures WellFormed(RemoveItem(s, productId).items)
  {
    var r := RemoveItem(s, productId);
    SubsequencePreservesWellFormed(r.items, s.items);
  }

  lemma UpdateQuantityWellFormed(s: CartState, productId: string, amount: int)
    requires WellFormed(s.items)
    ensures WellFormed(UpdateQuantity(s, productId, amount).items)
  {
    var adjusted := Keyed.UpdateWhere(s.items, productId, LineKey, AdjustBy(amount));
    Keyed.UpdatePreservesUnique(s.items, productId, LineKey, AdjustBy(amount));
    forall i | 0 <= i < |adjusted| && adjusted[i].product.isDigital
      ensures adjusted[i].quantity <= 1
    {
      assert adjusted[i] == s.items[i] || adjusted[i] == Adjust(s.items[i], amount);
    }
    var r := UpdateQuantity(s, productId, amount);
    assert r.items == Seqs.Filter(adjusted, Positive);
    Seqs.FilterSubsequence(adjusted, Positive);
    SubsequenceKeepsShape(r.items, adjusted);
  }

  /** A subsequence of a well-formed ledger is well formed. */
  lemma SubsequencePreservesWellFormed(r: seq<CartItem>, xs: seq<CartItem>)
    requires Seqs.Subsequence(r, xs)
    requires WellFormed(xs)
    ensures WellFormed(r)
  {
    SubsequenceKeepsShape(r, xs);
  }

  /** A subsequence of a ledger with one line per product and at most one of each digital
      product has the same two properties, and its quantities are those of lines of `xs`. */
  lemma {:induction false} SubsequenceKeepsShape(r: seq<CartItem>, xs: seq<CartItem>)
    requires Seqs.Subsequence(r, xs)
    requires OneLinePerProduct(xs)
    requires forall i :: 0 <= i < |xs| && xs[i].product.isDigital ==> xs[i].quantity <= 1
    ensures OneLinePerProduct(r)
    ensures forall it :: it in r ==> it in xs
    ensures PositiveQuantities(r) ==> WellFormed(r)
    decreases |xs|
  {
    if |r| > 0 {
      var tail := xs[1..];
      assert OneLinePerProduct(tail) by {
        forall i, j | 0 <= i < j < |tail|
          ensures tail[i].product.productId != tail[j].product.productId
        {
          assert tail[i] == xs[i + 1] && tail[j] == xs[j + 1];
        }
      }
      if r[0] == xs[0] {
        SubsequenceKeepsShape(r[1..], tail);
        forall j | 0 < j < |r| ensures r[0].product.productId != r[j].product.productId {
          assert r[j] == r[1..][j - 1];
          assert r[1..][j - 1] in r[1..];
          var k :| 0 <= k < |tail| && tail[k] == r[j];
          assert xs[k + 1] == r[j];
        }
        assert r == [r[0]] + r[1..];
      } else {
        SubsequenceKeepsShape(r, tail);
      }
    }
  }

  // ---------------------------------------------------------------------
  // Repeated additions
  // ---------------------------------------------------------------------

  /** `addItem(p)` called `n` times. */
  function AddTimes(s: CartState, p: Product, n: nat): CartState {
    if n == 0 then s else AddItem(AddTimes(s, p, n - 1), p)
  }

  /** However often a digital product is added to a cart without it, it ends up on one line
      with quantity 1. */
  lemma {:induction false} RepeatedAddDigital(s: CartState, p: Product, n: nat)
    requires p.isDigital
    requires !HasLine(s.items, p.productId)
    requires n >= 1
    ensures Lines(AddTimes(s, p, n).items) == Lines(s.items)[p.productId := CartItem(p, 1)]
  {
    if n == 1 {
      assert AddTimes(s, p, 1) == AddItem(s, p);
      FirstAdd(s, p);
    } else {
      RepeatedAddDigital(s, p, n - 1);
      AddItemLines(AddTimes(s, p, n - 1), p);
    }
  }

  /** The first copy of a product enters the ledger with quantity 1. */
  lemma FirstAdd(s: CartState, p: Product)
    requires !HasLine(s.items, p.productId)
    ensures Lines(AddItem(s, p).items) == Lines(s.items)[p.productId := CartItem(p, 1)]
  {
    LinesKeys(s.items);
    AddItemLines(s, p);
  }

  lemma AddPhysicalStep(t: CartState, p: Product, m: map<string, CartItem>, q: int)
    requires !p.isDigital
    requires Lines(t.items) == m[p.productId := CartItem(p, q)]
    ensures Lines(AddItem(t, p).items) == m[p.productId := CartItem(p, q + 1)]
  {
    AddItemLines(t, p);
  }

  /** Adding a physical product `n` times to a cart without it gives quantity `n`. */
  lemma {:induction false} RepeatedAddPhysical(s: CartState, p: Product, n: nat)
    requires !p.isDigital
    requires !HasLine(s.items, p.productId)
    requires n >= 1
    ensures Lines(AddTimes(s, p, n).items) == Lines(s.items)[p.productId := CartItem(p, n)]
  {
    if n == 1 {
      assert AddTimes(s, p, 1) == AddItem(s, p);
      FirstAdd(s, p);
    } else {
      var t := AddTimes(s, p, n - 1);
      assert Lines(t.items) == Lines(s.items)[p.productId := CartItem(p, n - 1)] by {
        RepeatedAddPhysical(s, p, n - 1);
      }
      AddPhysicalStep(t, p, Lines(s.items), n - 1);
    }
  }

  /** Lowering a line by its whole quantity removes it from the ledger. */
  lemma DecrementToZeroRemoves(s: CartState, productId: string)
    requires WellFormed(s.items)
    requires productId in Lines(s.items)
    ensures var n := Lines(s.items)[productId].quantity;
      Lines(UpdateQuantity(s, productId, -n).items) == Lines(s.items) - {productId}
  {
    LinesKeys(s.items);
    var n := Lines(s.items)[productId].quantity;
    UpdateQuantityLines(s, productId, -n);
  }
}

/** The point-of-sale screen (components/POS.tsx): the products it offers,
    the cart it builds, the totals, partial payment and change it shows, and
    the checkout that hands the cart to the ledger.

    This is the only place stock is guarded: the cart keeps one line per
    product and each line's quantity between 1 and the product's stock. */
module Cart {
  import opened Collections
  import opened Types
  import opened Text
  import Ledger

  const AllCategories: string := "All"

  // ---------------------------------------------------------------------
  // Cart invariants

  /** At most one line per product. */
  predicate UniqueLines(cart: seq<SaleItem>)
  {
    forall i, j :: 0 <= i < j < |cart| ==> cart[i].productId != cart[j].productId
  }

  /** Stock of the first product with this id, 0 when there is none. */
  function StockOf(products: seq<Product>, productId: string): (q: int)
    ensures (forall i :: 0 <= i < |products| ==> products[i].id != productId) ==> q == 0
    ensures forall i :: 0 <= i < |products| && products[i].id == productId && FirstWithId(products, i) ==>
      q == products[i].quantity
  {
    match FindFirst(products, (p: Product) => p.id == productId)
    case None => 0
    case Some(k) => products[k].quantity
  }

  /** No product before position `i` carries the id of the product at `i`. */
  predicate FirstWithId(products: seq<Product>, i: int)
    requires 0 <= i < |products|
  {
    forall j :: 0 <= j < i ==> products[j].id != products[i].id
  }

  /** Every line holds at least one unit and no more than its product's stock. */
  predicate WithinStock(cart: seq<SaleItem>, products: seq<Product>)
  {
    forall i :: 0 <= i < |cart| ==> 1 <= cart[i].quantity <= StockOf(products, cart[i].productId)
  }

  predicate UniqueProductIds(products: seq<Product>)
  {
    forall i, j :: 0 <= i < j < |products| ==> products[i].id != products[j].id
  }

  // ---------------------------------------------------------------------
  // Product list

  /** Whether a product passes the screen's search, category and stock filters. */
  predicate Offered(p: Product, search: string, category: string)
  {
    && Contains(Lower(p.name), Lower(search))
    && (category == AllCategories || p.categoryId == category)
    && p.quantity > 0
  }

  /** `filteredProducts`: only products in stock are ever offered. */
  function OfferedProducts(products: seq<Product>, search: string, category: string): (r: seq<Product>)
    ensures forall i :: 0 <= i < |r| ==> r[i] in products && r[i].quantity > 0
    ensures forall i :: 0 <= i < |r| ==> category == AllCategories || r[i].categoryId == category
    ensures forall i :: 0 <= i < |r| ==> Offered(r[i], search, category)
    ensures forall i :: 0 <= i < |products| && Offered(products[i], search, category) ==> products[i] in r
  {
    Filter(products, (p: Product) => Offered(p, search, category))
  }

  /** The offered products keep the catalogue's order: filtering two halves
      and joining them is filtering the whole. */
  lemma OfferedProductsKeepsOrder(front: seq<Product>, back: seq<Product>, search: string, category: string)
    ensures OfferedProducts(front + back, search, category)
      == OfferedProducts(front, search, category) + OfferedProducts(back, search, category)
  {
    FilterAppend(front, back, (p: Product) => Offered(p, search, category));
  }

  /** A single product is listed exactly when it passes the filters. */
  lemma OfferedProductsOne(p: Product, search: string, category: string)
    ensures OfferedProducts([p], search, category) == if Offered(p, search, category) then [p] else []
  {
    FilterOne(p, (p: Product) => Offered(p, search, category));
  }

  // ---------------------------------------------------------------------
  // Cart edits

  function LineIndex(cart: seq<SaleItem>, productId: string): Option<nat>
  {
    FindFirst(cart, (it: SaleItem) => it.productId == productId)
  }

  function Increment(it: SaleItem): SaleItem
  {
    it.(quantity := it.quantity + 1)
  }

  /** `addToCart`: a product already in the cart gets one more unit unless
      that line has reached the product's stock; a new product gets a line of
      one unit at its current price. */
  function AddToCart(cart: seq<SaleItem>, product: Product): (r: seq<SaleItem>)
    ensures LineIndex(cart, product.id).None? ==>
      r == cart + [SaleItem(product.id, product.name, 1, product.price)]
    ensures LineIndex(cart, product.id).Some? ==> |r| == |cart|
    ensures forall i :: 0 <= i < |cart| && cart[i].productId != product.id ==> r[i] == cart[i]
    ensures LineIndex(cart, product.id).Some? && cart[LineIndex(cart, product.id).value].quantity >= product.quantity ==>
      r == cart
    ensures LineIndex(cart, product.id).Some? && cart[LineIndex(cart, product.id).value].quantity < product.quantity ==>
      forall i :: 0 <= i < |cart| && cart[i].productId == product.id ==>
        r[i] == cart[i].(quantity := cart[i].quantity + 1)
    ensures UniqueLines(cart) ==> UniqueLines(r)
  {
    match LineIndex(cart, product.id)
    case Some(k) =>
      if cart[k].quantity >= product.quantity then cart
      else MapWhere(cart, (it: SaleItem) => it.productId == product.id, Increment)
    case None =>
      cart + [SaleItem(product.id, product.name, 1, product.price)]
  }

  /** Adding keeps one line per product. Adding a product in stock — and
      the catalogue's own record for its id — also keeps every line within
      stock; `AddToCart` itself does not check that the product is in stock. */
  lemma AddToCartKeepsInvariant(cart: seq<SaleItem>, products: seq<Product>, product: Product)
    requires UniqueLines(cart) && WithinStock(cart, products)
    ensures UniqueLines(AddToCart(cart, product))
    ensures product.quantity > 0 && StockOf(products, product.id) == product.quantity ==>
      WithinStock(AddToCart(cart, product), products)
  {
    if product.quantity > 0 && StockOf(products, product.id) == product.quantity {
      var r := AddToCart(cart, product);
      match LineIndex(cart, product.id)
      case None =>
        assert r == cart + [SaleItem(product.id, product.name, 1, product.price)];
      case Some(k) =>
        if cart[k].quantity < product.quantity {
          forall i | 0 <= i < |r|
            ensures 1 <= r[i].quantity <= StockOf(products, r[i].productId)
          {
            if cart[i].productId == product.id {
              assert i == k;
            }
          }
        }
    }
  }

  /** The unguarded entry points (the inventory's sell button and the camera
      scan) add a product whatever its stock: a product out of stock and not
      yet in the cart gets a line of one unit, beyond its stock. */
  lemma AddingSoldOutProductExceedsStock(cart: seq<SaleItem>, products: seq<Product>, product: Product)
    requires LineIndex(cart, product.id).None?
    requires StockOf(products, product.id) == product.quantity <= 0
    ensures !WithinStock(AddToCart(cart, product), products)
  {
    var r := AddToCart(cart, product);
    assert r[|cart|].productId == product.id && r[|cart|].quantity == 1;
  }

  /** A product with no stock, sent to the register from the inventory and
      sold at once: checkout leaves its stock at -1. */
  lemma SoldOutSaleGoesNegative(product: Product, stamp: Ledger.Stamp)
    requires product.quantity == 0
    ensures var cart := AddToCart([], product);
      && Checkout(Store([product], []), cart, None, None, "Espèces", None, stamp).Completed?
      && Checkout(Store([product], []), cart, None, None, "Espèces", None, stamp).store.products[0].quantity == -1
  {
    var cart := AddToCart([], product);
    assert cart == [SaleItem(product.id, product.name, 1, product.price)];
    var r := Checkout(Store([product], []), cart, None, None, "Espèces", None, stamp);
    assert Ledger.LineFor(cart, product.id) == Some(cart[0]);
    Ledger.TakeStockEffect([product], cart);
  }

  /** The guarded entry (`handleBarcodeSubmit`, also what the grid ensures by
      listing only products in stock): a product out of stock is refused and
      the cart stays as it was. */
  function AddInStock(cart: seq<SaleItem>, product: Product): (r: seq<SaleItem>)
    ensures product.quantity <= 0 ==> r == cart
    ensures product.quantity > 0 ==> r == AddToCart(cart, product)
  {
    if product.quantity > 0 then AddToCart(cart, product) else cart
  }

  /** With the stock guard, adding the catalogue's record of any product
      keeps the cart within stock with one line per product. */
  lemma AddInStockKeepsInvariant(cart: seq<SaleItem>, products: seq<Product>, product: Product)
    requires UniqueLines(cart) && WithinStock(cart, products)
    requires StockOf(products, product.id) == product.quantity
    ensures UniqueLines(AddInStock(cart, product)) && WithinStock(AddInStock(cart, product), products)
  {
    AddToCartKeepsInvariant(cart, products, product);
  }

  /** `removeFromCart`: drops the lines of one product. */
  function RemoveFromCart(cart: seq<SaleItem>, productId: string): (r: seq<SaleItem>)
    ensures forall i :: 0 <= i < |r| ==> r[i].productId != productId && r[i] in cart
    ensures forall i :: 0 <= i < |cart| && cart[i].productId != productId ==> cart[i] in r
    ensures (forall i :: 0 <= i < |cart| ==> cart[i].productId != productId) ==> r == cart
  {
    var keep := (it: SaleItem) => it.productId != productId;
    if forall i :: 0 <= i < |cart| ==> cart[i].productId != productId then
      FilterKeepsAll(cart, keep);
      Filter(cart, keep)
    else Filter(cart, keep)
  }

  /** Removal keeps the order of the remaining lines: removing from two
      halves and joining them is removing from the whole. */
  lemma RemoveFromCartKeepsOrder(front: seq<SaleItem>, back: seq<SaleItem>, productId: string)
    ensures RemoveFromCart(front + back, productId) == RemoveFromCart(front, productId) + RemoveFromCart(back, productId)
  {
    FilterAppend(front, back, (it: SaleItem) => it.productId != productId);
  }

  /** A single line is dropped exactly when it is for the product. */
  lemma RemoveFromCartOne(it: SaleItem, productId: string)
    ensures RemoveFromCart([it], productId) == if it.productId == productId then [] else [it]
  {
    FilterOne(it, (it: SaleItem) => it.productId != productId);
  }

  function ProductIdOf(it: SaleItem): string { it.productId }

  lemma RemoveFromCartKeepsInvariant(cart: seq<SaleItem>, products: seq<Product>, productId: string)
    requires UniqueLines(cart) && WithinStock(cart, products)
    ensures UniqueLines(RemoveFromCart(cart, productId)) && WithinStock(RemoveFromCart(cart, productId), products)
  {
    FilterKeepsKeysDistinct(cart, (it: SaleItem) => it.productId != productId, ProductIdOf);
  }

  /** The line after a quantity change: kept as it is when the new quantity
      would drop below 1 or exceed the stock. */
  function Bump(it: SaleItem, maxStock: int, delta: int): (r: SaleItem)
    ensures r == it || (r == it.(quantity := it.quantity + delta) && 1 <= r.quantity <= maxStock)
    ensures r != it <==> delta != 0 && 1 <= it.quantity + delta <= maxStock
  {
    var newQty := it.quantity + delta;
    if newQty <= 0 then it
    else if newQty > maxStock then it
    else it.(quantity := newQty)
  }

  /** `updateQuantity`: the lines of this product move by `delta` when the
      result stays between 1 and the product's current stock (0 for a
      product no longer in the catalogue); all other lines are untouched. */
  function UpdateQuantity(cart: seq<SaleItem>, products: seq<Product>, productId: string, delta: int): (r: seq<SaleItem>)
    ensures |r| == |cart|
    ensures forall i :: 0 <= i < |cart| && cart[i].productId != productId ==> r[i] == cart[i]
    ensures forall i :: 0 <= i < |cart| ==>
      r[i] == cart[i] ||
      (r[i] == cart[i].(quantity := cart[i].quantity + delta) && 1 <= r[i].quantity <= StockOf(products, productId))
    ensures forall i :: 0 <= i < |cart| && cart[i].productId == productId ==>
      (r[i] != cart[i] <==> delta != 0 && 1 <= cart[i].quantity + delta <= StockOf(products, productId))
  {
    var maxStock := StockOf(products, productId);
    MapWhere(cart, (it: SaleItem) => it.productId == productId, (it: SaleItem) => Bump(it, maxStock, delta))
  }

  lemma UpdateQuantityKeepsInvariant(cart: seq<SaleItem>, products: seq<Product>, productId: string, delta: int)
    requires UniqueLines(cart) && WithinStock(cart, products)
    ensures UniqueLines(UpdateQuantity(cart, products, productId, delta))
    ensures WithinStock(UpdateQuantity(cart, products, productId, delta), products)
  {
    var r := UpdateQuantity(cart, products, productId, delta);
    assert forall i :: 0 <= i < |r| ==> r[i].productId == cart[i].productId;
  }

  // ---------------------------------------------------------------------
  // Totals

  function LineTotal(it: SaleItem): int { it.price * it.quantity }

  /** The cart's subtotal: every line's unit price times its quantity. */
  function SubTotal(cart: seq<SaleItem>): int
  {
    SumOf(cart, LineTotal)
  }

  /** One more unit of a line costs one more unit price. */
  lemma IncrementCostsOnePrice(it: SaleItem)
    ensures LineTotal(Increment(it)) == LineTotal(it) + it.price
  {
    calc {
      LineTotal(Increment(it));
      it.price * (it.quantity + 1);
      it.price * it.quantity + it.price;
    }
  }

  /** With one line per product, incrementing the product's lines changes
      exactly the line at its index. */
  lemma IncrementTouchesOneLine(cart: seq<SaleItem>, product: Product, k: nat)
    requires UniqueLines(cart)
    requires LineIndex(cart, product.id) == Some(k) && cart[k].quantity < product.quantity
    ensures AddToCart(cart, product) == cart[k := Increment(cart[k])]
  {
    var r := AddToCart(cart, product);
    assert cart[k].productId == product.id;
    assert forall i :: 0 <= i < |cart| ==> r[i] == cart[k := Increment(cart[k])][i];
  }

  /** Each accepted `addToCart` raises the subtotal by one unit at the
      price its line recorded: the product's current price for a new line,
      the line's own price for an existing one. */
  lemma AddToCartRaisesSubTotal(cart: seq<SaleItem>, product: Product)
    requires UniqueLines(cart)
    ensures LineIndex(cart, product.id).None? ==>
      SubTotal(AddToCart(cart, product)) == SubTotal(cart) + product.price
    ensures LineIndex(cart, product.id).Some? ==>
      var line := cart[LineIndex(cart, product.id).value];
      SubTotal(AddToCart(cart, product)) == SubTotal(cart) + (if line.quantity >= product.quantity then 0 else line.price)
  {
    var r := AddToCart(cart, product);
    match LineIndex(cart, product.id)
    case None =>
      assert r[..|r| - 1] == cart;
    case Some(k) =>
      if cart[k].quantity < product.quantity {
        IncrementTouchesOneLine(cart, product, k);
        SumOfUpdate(cart, k, Increment(cart[k]), LineTotal);
        IncrementCostsOnePrice(cart[k]);
      }
  }

  /** The discount field as read: an unreadable or zero discount counts as none. */
  function DiscountAmount(input: Option<int>): (d: int)
    ensures input.None? ==> d == 0
    ensures input.Some? ==> d == input.value
  {
    match input
    case None => 0
    case Some(v) => v
  }

  /** `finalTotal`, the same clamped difference the ledger records. */
  function FinalTotal(cart: seq<SaleItem>, discountInput: Option<int>): (t: int)
    ensures t >= 0 && t >= SubTotal(cart) - DiscountAmount(discountInput)
    ensures t == 0 || t == SubTotal(cart) - DiscountAmount(discountInput)
  {
    Ledger.SaleTotal(SubTotal(cart), DiscountAmount(discountInput))
  }

  /** An amount was typed and it does not cover the total. */
  predicate IsPartialPayment(given: Option<int>, finalTotal: int)
  {
    given.Some? && given.value < finalTotal
  }

  /** `changeDue`: what is handed back when the amount given exceeds the total. */
  function ChangeDue(given: Option<int>, finalTotal: int): (c: int)
    ensures c >= 0
    ensures c > 0 <==> given.Some? && given.value > finalTotal
    ensures c > 0 ==> given.value == finalTotal + c
  {
    if given.Some? && given.value > finalTotal then given.value - finalTotal else 0
  }

  /** A payment is partial or gives change, never both. */
  lemma PartialOrChange(given: Option<int>, finalTotal: int)
    ensures !(IsPartialPayment(given, finalTotal) && ChangeDue(given, finalTotal) > 0)
    ensures given.Some? && !IsPartialPayment(given, finalTotal) ==> given.value == finalTotal + ChangeDue(given, finalTotal)
  {
  }

  // ---------------------------------------------------------------------
  // Checkout

  datatype CheckoutOutcome =
    | Ignored
    | Completed(store: Store, changeDue: int)

  /** `handleCheckout`: nothing happens on an empty cart; otherwise the cart,
      its subtotal, the discount and the amount given go to the ledger, and
      the change is reported (the cart is then emptied). */
  function Checkout(st: Store, cart: seq<SaleItem>, discountInput: Option<int>, given: Option<int>,
                    payMethod: string, client: Option<Client>, stamp: Ledger.Stamp): (r: CheckoutOutcome)
    ensures r.Ignored? <==> |cart| == 0
    ensures r.Completed? ==>
      && |r.store.sales| == |st.sales| + 1
      && r.store.sales[..|st.sales|] == st.sales
      && var sale := r.store.sales[|st.sales|];
         && sale.items == cart
         && |sale.payments| == 1
         && sale.subTotal == SubTotal(cart)
         && sale.totalPrice == FinalTotal(cart, discountInput)
         && (sale.status == Partial <==> IsPartialPayment(given, FinalTotal(cart, discountInput)))
         && (given.Some? && !IsPartialPayment(given, FinalTotal(cart, discountInput)) ==>
               sale.payments[0].amount + r.changeDue == given.value)
    ensures r.Completed? ==>
      && var sale := r.store.sales[|st.sales|];
         && sale.discount == DiscountAmount(discountInput)
         && sale.paymentMethod == payMethod
         && sale.clientId == (if client.Some? then Some(client.value.id) else None)
         && sale.clientName == (if client.Some? then Some(client.value.name) else None)
    ensures r.Completed? ==> |r.store.products| == |st.products|
    ensures r.Completed? ==> forall i :: 0 <= i < |st.products| ==>
      r.store.products[i] == st.products[i].(quantity := st.products[i].quantity - Ledger.StockDelta(cart, st.products[i].id))
    ensures r.Completed? ==> r.store == Ledger.ProcessSale(st, cart, SubTotal(cart), DiscountAmount(discountInput),
                                                          payMethod, client, given, stamp)
    ensures r.Completed? ==> r.changeDue >= 0
    ensures r.Completed? && !(given.Some? && given.value > FinalTotal(cart, discountInput)) ==> r.changeDue == 0
    ensures r.Completed? ==> r.changeDue == ChangeDue(given, FinalTotal(cart, discountInput))
  {
    if |cart| == 0 then Ignored
    else
      var subTotal := SubTotal(cart);
      var discount := DiscountAmount(discountInput);
      var total := FinalTotal(cart, discountInput);
      Completed(Ledger.ProcessSale(st, cart, subTotal, discount, payMethod, client, given, stamp),
                ChangeDue(given, total))
  }

  /** A cart built under the screen's guards never drives stock negative:
      with one catalogue entry per id and every line within stock, checkout
      leaves every quantity non-negative. */
  lemma CheckoutKeepsStockNonNegative(st: Store, cart: seq<SaleItem>, discountInput: Option<int>, given: Option<int>,
                                      payMethod: string, client: Option<Client>, stamp: Ledger.Stamp)
    requires UniqueProductIds(st.products) && WithinStock(cart, st.products)
    requires forall i :: 0 <= i < |st.products| ==> st.products[i].quantity >= 0
    ensures var r := Checkout(st, cart, discountInput, given, payMethod, client, stamp);
      r.Completed? ==> forall i :: 0 <= i < |r.store.products| ==> r.store.products[i].quantity >= 0
  {
    forall i, k | 0 <= i < |st.products| && 0 <= k < |cart| && cart[k].productId == st.products[i].id
      ensures cart[k].quantity <= st.products[i].quantity
    {
      assert StockOf(st.products, cart[k].productId) == st.products[i].quantity;
    }
    Ledger.TakeStockNonNegative(st.products, cart);
  }
}

/** The sale / payment / stock ledger of App.tsx: creating a sale (which
    takes stock and records the first payment), cancelling it (which gives the
    stock back), editing it, adding, removing and correcting payments, and the
    migration run on sales loaded from an older snapshot.

    Each handler is a pure function from the old `Store` to the new one. The
    handlers never fail: an unknown sale id leaves the store as it was, and no
    quantity or amount is checked. */
module Ledger {
  import opened Collections
  import opened Types

  /** The values sale creation reads from the clock (`Date.now()` for the
      ids, `new Date()` for the date). */
  datatype Stamp = Stamp(saleId: string, paymentId: string, date: string)

  /** Which status rule a payment handler applies once the balance is known:
      adding and correcting a payment yield PAID or PARTIAL, removing one may
      also yield UNPAID. */
  datatype StatusRule = PaidOrPartial | PaidPartialOrUnpaid

  const LegacyPaymentPrefix: string := "pay_"
  const DefaultPaymentMethod: string := "Esp\U{00E8}ces"

  // ---------------------------------------------------------------------
  // Stock

  /** The first sale line for this product id, if any. */
  function LineFor(items: seq<SaleItem>, productId: string): (r: Option<SaleItem>)
    ensures r.None? <==> forall i :: 0 <= i < |items| ==> items[i].productId != productId
    ensures r.Some? ==> r.value.productId == productId
    ensures r.Some? ==> exists i :: 0 <= i < |items| && items[i] == r.value &&
                                    forall j :: 0 <= j < i ==> items[j].productId != productId
  {
    match FindFirst(items, (it: SaleItem) => it.productId == productId)
    case None => None
    case Some(k) => Some(items[k])
  }

  /** How many units of the product with this id a sale with these lines moves. */
  function StockDelta(items: seq<SaleItem>, productId: string): int
  {
    match LineFor(items, productId)
    case None => 0
    case Some(it) => it.quantity
  }

  /** Stock after a sale: every product with a line loses that line's quantity. */
  function TakeStock(products: seq<Product>, items: seq<SaleItem>): seq<Product>
  {
    if |products| == 0 then []
    else
      var p := products[0];
      [p.(quantity := p.quantity - StockDelta(items, p.id))] + TakeStock(products[1..], items)
  }

  /** Stock after cancelling a sale: the same walk with the quantity added back. */
  function ReturnStock(products: seq<Product>, items: seq<SaleItem>): seq<Product>
  {
    if |products| == 0 then []
    else
      var p := products[0];
      [p.(quantity := p.quantity + StockDelta(items, p.id))] + ReturnStock(products[1..], items)
  }

  /** Taking stock keeps the catalogue's length and order and changes only
      quantities: a product without a sale line keeps its quantity, a product
      with one loses that line's quantity. */
  lemma {:induction false} TakeStockEffect(products: seq<Product>, items: seq<SaleItem>)
    ensures |TakeStock(products, items)| == |products|
    ensures forall i :: 0 <= i < |products| ==>
      TakeStock(products, items)[i] == products[i].(quantity := TakeStock(products, items)[i].quantity)
    ensures forall i :: 0 <= i < |products| && LineFor(items, products[i].id).None? ==>
      TakeStock(products, items)[i] == products[i]
    ensures forall i :: 0 <= i < |products| && LineFor(items, products[i].id).Some? ==>
      TakeStock(products, items)[i].quantity == products[i].quantity - LineFor(items, products[i].id).value.quantity
    decreases |products|
  {
    if |products| > 0 {
      TakeStockEffect(products[1..], items);
    }
  }

  /** Giving stock back is the mirror image of taking it. */
  lemma {:induction false} ReturnStockEffect(products: seq<Product>, items: seq<SaleItem>)
    ensures |ReturnStock(products, items)| == |products|
    ensures forall i :: 0 <= i < |products| ==>
      ReturnStock(products, items)[i] == products[i].(quantity := ReturnStock(products, items)[i].quantity)
    ensures forall i :: 0 <= i < |products| && LineFor(items, products[i].id).None? ==>
      ReturnStock(products, items)[i] == products[i]
    ensures forall i :: 0 <= i < |products| && LineFor(items, products[i].id).Some? ==>
      ReturnStock(products, items)[i].quantity == products[i].quantity + LineFor(items, products[i].id).value.quantity
    decreases |products|
  {
    if |products| > 0 {
      ReturnStockEffect(products[1..], items);
    }
  }

  /** Giving back the stock of a set of lines undoes taking it, product by
      product, whether or not the lines repeat a product id. */
  lemma {:induction false} ReturnUndoesTake(products: seq<Product>, items: seq<SaleItem>)
    ensures ReturnStock(TakeStock(products, items), items) == products
    decreases |products|
  {
    if |products| > 0 {
      ReturnUndoesTake(products[1..], items);
    }
  }

  /** When the lines name distinct products, a product loses exactly the
      quantity of the line that names it. */
  lemma DistinctLinesTakeTheirQuantity(products: seq<Product>, items: seq<SaleItem>, i: int, k: int)
    requires forall a, b :: 0 <= a < b < |items| ==> items[a].productId != items[b].productId
    requires 0 <= i < |products| && 0 <= k < |items| && items[k].productId == products[i].id
    ensures |TakeStock(products, items)| == |products|
    ensures TakeStock(products, items)[i].quantity == products[i].quantity - items[k].quantity
  {
    TakeStockEffect(products, items);
    var it := LineFor(items, products[i].id).value;
    var j :| 0 <= j < |items| && items[j] == it && forall m :: 0 <= m < j ==> items[m].productId != products[i].id;
    assert j == k;
  }

  /** The sale path subtracts unconditionally, so stock stays non-negative
      only when every line fits the stock of the products it names — the
      guard the point-of-sale cart keeps. */
  lemma {:induction false} TakeStockNonNegative(products: seq<Product>, items: seq<SaleItem>)
    requires forall i :: 0 <= i < |products| ==> products[i].quantity >= 0
    requires forall i, k :: 0 <= i < |products| && 0 <= k < |items| && items[k].productId == products[i].id ==>
      items[k].quantity <= products[i].quantity
    ensures forall i :: 0 <= i < |TakeStock(products, items)| ==> TakeStock(products, items)[i].quantity >= 0
  {
    TakeStockEffect(products, items);
    forall i | 0 <= i < |products|
      ensures TakeStock(products, items)[i].quantity >= 0
    {
      var line := LineFor(items, products[i].id);
      if line.Some? {
        var k :| 0 <= k < |items| && items[k] == line.value && forall m :: 0 <= m < k ==> items[m].productId != products[i].id;
        assert items[k].quantity <= products[i].quantity;
      }
    }
  }

  // ---------------------------------------------------------------------
  // Sale creation

  /** The subtotal less the discount, never below zero. */
  function SaleTotal(subTotal: int, discount: int): (t: int)
    ensures t >= 0 && t >= subTotal - discount
    ensures t == 0 || t == subTotal - discount
  {
    if subTotal - discount > 0 then subTotal - discount else 0
  }

  /** The sale record `handleProcessSale` appends: one first payment that is
      the amount given when it falls short of the total and the total
      otherwise (an overpayment is change, not money kept). */
  function NewSale(items: seq<SaleItem>, subTotal: int, discount: int, payMethod: string,
                   client: Option<Client>, amountPaid: Option<int>, stamp: Stamp): (s: Sale)
    ensures s.id == stamp.saleId && s.date == stamp.date && s.items == items
    ensures s.subTotal == subTotal && s.discount == discount && s.paymentMethod == payMethod
    ensures s.totalPrice >= 0 && s.totalPrice >= subTotal - discount
    ensures s.totalPrice == 0 || s.totalPrice == subTotal - discount
    ensures |s.payments| == 1
    ensures s.payments[0].id == stamp.paymentId && s.payments[0].payMethod == payMethod && s.payments[0].date == stamp.date
    ensures amountPaid.None? ==> s.payments[0].amount == s.totalPrice
    ensures amountPaid.Some? && amountPaid.value >= s.totalPrice ==> s.payments[0].amount == s.totalPrice
    ensures amountPaid.Some? && amountPaid.value < s.totalPrice ==> s.payments[0].amount == amountPaid.value
    ensures Balanced(s) && StatusAgrees(s)
    ensures s.status != Unpaid
    ensures s.status == Partial <==> amountPaid.Some? && amountPaid.value < s.totalPrice
    ensures s.clientId == (if client.Some? then Some(client.value.id) else None)
    ensures s.clientName == (if client.Some? then Some(client.value.name) else None)
  {
    var total := SaleTotal(subTotal, discount);
    var effectivePaid := if amountPaid.Some? && amountPaid.value < total then amountPaid.value else total;
    var payment := SalePayment(stamp.paymentId, effectivePaid, payMethod, stamp.date);
    var balance := total - effectivePaid;
    TotalPaidOne(payment);
    Sale(stamp.saleId, items, subTotal, discount, total, stamp.date, payMethod, [payment], balance,
         if balance <= 0 then Paid else Partial,
         if client.Some? then Some(client.value.id) else None,
         if client.Some? then Some(client.value.name) else None)
  }

  /** `handleProcessSale`: takes every line's quantity from its product,
      without any stock check, and appends the new sale. */
  function ProcessSale(st: Store, items: seq<SaleItem>, subTotal: int, discount: int, payMethod: string,
                       client: Option<Client>, amountPaid: Option<int>, stamp: Stamp): (r: Store)
    ensures |r.sales| == |st.sales| + 1 && r.sales[..|st.sales|] == st.sales
    ensures r.sales[|st.sales|] == NewSale(items, subTotal, discount, payMethod, client, amountPaid, stamp)
    ensures |r.products| == |st.products|
    ensures forall i :: 0 <= i < |st.products| ==>
      r.products[i] == st.products[i].(quantity := r.products[i].quantity)
    ensures forall i :: 0 <= i < |st.products| && LineFor(items, st.products[i].id).None? ==>
      r.products[i] == st.products[i]
    ensures forall i :: 0 <= i < |st.products| && LineFor(items, st.products[i].id).Some? ==>
      r.products[i].quantity == st.products[i].quantity - LineFor(items, st.products[i].id).value.quantity
  {
    TakeStockEffect(st.products, items);
    var sale := NewSale(items, subTotal, discount, payMethod, client, amountPaid, stamp);
    assert (st.sales + [sale])[..|st.sales|] == st.sales;
    Store(TakeStock(st.products, items), st.sales + [sale])
  }

  /** The catalogue a sale leaves is the stock taken by its lines. */
  lemma ProcessSaleTakesStock(st: Store, items: seq<SaleItem>, subTotal: int, discount: int, payMethod: string,
                              client: Option<Client>, amountPaid: Option<int>, stamp: Stamp)
    ensures ProcessSale(st, items, subTotal, discount, payMethod, client, amountPaid, stamp).products
      == TakeStock(st.products, items)
  {
  }

  // ---------------------------------------------------------------------
  // Sale cancellation and editing

  /** Position of the first sale with this id, if any. */
  function SaleIndex(sales: seq<Sale>, saleId: string): (r: Option<nat>)
    ensures r.None? <==> forall i :: 0 <= i < |sales| ==> sales[i].id != saleId
    ensures r.Some? ==> r.value < |sales| && sales[r.value].id == saleId
    ensures r.Some? ==> forall j :: 0 <= j < r.value ==> sales[j].id != saleId
  {
    FindFirst(sales, (s: Sale) => s.id == saleId)
  }

  /** The sales history without the sales carrying this id, in their order. */
  function SalesWithout(sales: seq<Sale>, saleId: string): (r: seq<Sale>)
    ensures forall i :: 0 <= i < |r| ==> r[i].id != saleId && r[i] in sales
    ensures forall i :: 0 <= i < |sales| && sales[i].id != saleId ==> sales[i] in r
    ensures (exists i :: 0 <= i < |sales| && sales[i].id == saleId) ==> |r| < |sales|
  {
    Filter(sales, (s: Sale) => s.id != saleId)
  }

  /** Removal works piece by piece, so the surviving sales keep their order. */
  lemma SalesWithoutKeepsOrder(front: seq<Sale>, back: seq<Sale>, saleId: string)
    ensures SalesWithout(front + back, saleId) == SalesWithout(front, saleId) + SalesWithout(back, saleId)
  {
    FilterAppend(front, back, (s: Sale) => s.id != saleId);
  }

  /** A single sale is dropped exactly when it carries the id. */
  lemma SalesWithoutOne(s: Sale, saleId: string)
    ensures SalesWithout([s], saleId) == if s.id == saleId then [] else [s]
  {
    FilterOne(s, (s: Sale) => s.id != saleId);
  }

  /** `handleDeleteSale`: gives back the stock of the first sale with this
      id and drops every sale with this id; an unknown id changes nothing. */
  function DeleteSale(st: Store, saleId: string): (r: Store)
    ensures SaleIndex(st.sales, saleId).None? ==> r == st
    ensures SaleIndex(st.sales, saleId).Some? ==>
      && (forall i :: 0 <= i < |r.sales| ==> r.sales[i].id != saleId && r.sales[i] in st.sales)
      && (forall i :: 0 <= i < |st.sales| && st.sales[i].id != saleId ==> st.sales[i] in r.sales)
      && |r.sales| < |st.sales|
      && r.sales == SalesWithout(st.sales, saleId)
    ensures SaleIndex(st.sales, saleId).Some? ==>
      var gone := st.sales[SaleIndex(st.sales, saleId).value];
      && |r.products| == |st.products|
      && (forall i :: 0 <= i < |st.products| ==>
            r.products[i] == st.products[i].(quantity := r.products[i].quantity))
      && (forall i :: 0 <= i < |st.products| && LineFor(gone.items, st.products[i].id).None? ==>
            r.products[i] == st.products[i])
      && (forall i :: 0 <= i < |st.products| && LineFor(gone.items, st.products[i].id).Some? ==>
            r.products[i].quantity == st.products[i].quantity + LineFor(gone.items, st.products[i].id).value.quantity)
  {
    match SaleIndex(st.sales, saleId)
    case None => st
    case Some(k) =>
      ReturnStockEffect(st.products, st.sales[k].items);
      var kept := SalesWithout(st.sales, saleId);
      Store(ReturnStock(st.products, st.sales[k].items), kept)
  }

  /** Every sale whose id matches is replaced by `updated`; the others stay
      where they are. */
  function ReplaceSale(sales: seq<Sale>, saleId: string, updated: Sale): (r: seq<Sale>)
    ensures |r| == |sales|
    ensures forall i :: 0 <= i < |sales| && sales[i].id != saleId ==> r[i] == sales[i]
    ensures forall i :: 0 <= i < |sales| && sales[i].id == saleId ==> r[i] == updated
  {
    MapWhere(sales, (s: Sale) => s.id == saleId, (_: Sale) => updated)
  }

  /** `handleUpdateSale`: the caller's record replaces every sale with its
      id; stock is never touched. */
  function UpdateSale(st: Store, updated: Sale): (r: Store)
    ensures r.products == st.products
    ensures |r.sales| == |st.sales|
    ensures forall i :: 0 <= i < |st.sales| && st.sales[i].id != updated.id ==> r.sales[i] == st.sales[i]
    ensures forall i :: 0 <= i < |st.sales| && st.sales[i].id == updated.id ==> r.sales[i] == updated
  {
    st.(sales := ReplaceSale(st.sales, updated.id, updated))
  }

  // ---------------------------------------------------------------------
  // Payments

  /** The recomputation every payment handler ends with: the new payment list,
      the balance still owed, and the status the rule derives from it. */
  function Reconcile(sale: Sale, payments: seq<SalePayment>, rule: StatusRule): (r: Sale)
    ensures r == sale.(payments := payments, balance := r.balance, status := r.status)
    ensures Balanced(r) && StatusAgrees(r)
    ensures rule == PaidOrPartial ==> r.status != Unpaid
    ensures rule == PaidPartialOrUnpaid ==>
      (r.status == Unpaid <==> r.balance > 0 && TotalPaid(payments) == 0)
  {
    var paid := TotalPaid(payments);
    var balance := sale.totalPrice - paid;
    var status :=
      if balance <= 0 then Paid
      else if rule == PaidPartialOrUnpaid && paid == 0 then Unpaid
      else Partial;
    sale.(payments := payments, balance := balance, status := status)
  }

  /** The ledger outside the sale being paid is untouched. */
  ghost predicate OnlySaleChanged(st: Store, r: Store, saleId: string)
  {
    && r.products == st.products
    && |r.sales| == |st.sales|
    && forall i :: 0 <= i < |st.sales| && st.sales[i].id != saleId ==> r.sales[i] == st.sales[i]
  }

  /** The sales carrying `saleId` now hold the reconciled copy of the first of
      them, with the given payment list. */
  ghost predicate SaleSettled(st: Store, r: Store, saleId: string, payments: seq<SalePayment>)
    requires |r.sales| == |st.sales|
  {
    forall i :: 0 <= i < |st.sales| && st.sales[i].id == saleId ==>
      && r.sales[i].payments == payments
      && r.sales[i] == st.sales[SaleIndex(st.sales, saleId).value].(payments := payments, balance := r.sales[i].balance, status := r.sales[i].status)
      && Balanced(r.sales[i])
      && StatusAgrees(r.sales[i])
  }

  /** `handleAddPaymentToSale`: appends the payment, whatever its amount. */
  function AddPayment(st: Store, saleId: string, payment: SalePayment): (r: Store)
    ensures SaleIndex(st.sales, saleId).None? ==> r == st
    ensures OnlySaleChanged(st, r, saleId)
    ensures SaleIndex(st.sales, saleId).Some? ==>
      var k := SaleIndex(st.sales, saleId).value;
      && SaleSettled(st, r, saleId, st.sales[k].payments + [payment])
      && forall i :: 0 <= i < |st.sales| && st.sales[i].id == saleId ==> r.sales[i].status != Unpaid
  {
    match SaleIndex(st.sales, saleId)
    case None => st
    case Some(k) =>
      var sale := st.sales[k];
      st.(sales := ReplaceSale(st.sales, saleId, Reconcile(sale, sale.payments + [payment], PaidOrPartial)))
  }

  /** The payments whose id differs, in their order. */
  function WithoutPayment(payments: seq<SalePayment>, paymentId: string): (r: seq<SalePayment>)
    ensures forall i :: 0 <= i < |r| ==> r[i].id != paymentId && r[i] in payments
    ensures forall i :: 0 <= i < |payments| && payments[i].id != paymentId ==> payments[i] in r
    ensures (forall i :: 0 <= i < |payments| ==> payments[i].id != paymentId) ==> r == payments
  {
    var r := Filter(payments, (p: SalePayment) => p.id != paymentId);
    if forall i :: 0 <= i < |payments| ==> payments[i].id != paymentId then
      FilterKeepsAll(payments, (p: SalePayment) => p.id != paymentId);
      r
    else r
  }

  /** The payments carrying this id: exactly what `WithoutPayment` removes. */
  function PaymentsWithId(payments: seq<SalePayment>, paymentId: string): (r: seq<SalePayment>)
    ensures forall i :: 0 <= i < |r| ==> r[i].id == paymentId && r[i] in payments
    ensures forall i :: 0 <= i < |payments| && payments[i].id == paymentId ==> payments[i] in r
  {
    Filter(payments, (p: SalePayment) => p.id == paymentId)
  }

  /** Removal works piece by piece, so the surviving payments keep their order. */
  lemma WithoutPaymentKeepsOrder(front: seq<SalePayment>, back: seq<SalePayment>, paymentId: string)
    ensures WithoutPayment(front + back, paymentId) == WithoutPayment(front, paymentId) + WithoutPayment(back, paymentId)
  {
    FilterAppend(front, back, (p: SalePayment) => p.id != paymentId);
  }

  /** A single payment is dropped exactly when it carries the id. */
  lemma WithoutPaymentOne(p: SalePayment, paymentId: string)
    ensures WithoutPayment([p], paymentId) == if p.id == paymentId then [] else [p]
  {
    FilterOne(p, (p: SalePayment) => p.id != paymentId);
  }

  /** Deleting payments lowers the amount paid by exactly the deleted amounts. */
  lemma WithoutPaymentLowersTotal(payments: seq<SalePayment>, paymentId: string)
    ensures TotalPaid(WithoutPayment(payments, paymentId)) == TotalPaid(payments) - TotalPaid(PaymentsWithId(payments, paymentId))
  {
    FilterSplitsSum(payments, (p: SalePayment) => p.id != paymentId, (p: SalePayment) => p.id == paymentId, Amount);
  }

  /** `handleDeletePaymentFromSale`: removes the payments with this id (none,
      if the id is unknown) and recomputes, now allowing UNPAID. */
  function DeletePayment(st: Store, saleId: string, paymentId: string): (r: Store)
    ensures SaleIndex(st.sales, saleId).None? ==> r == st
    ensures OnlySaleChanged(st, r, saleId)
    ensures SaleIndex(st.sales, saleId).Some? ==>
      var k := SaleIndex(st.sales, saleId).value;
      && SaleSettled(st, r, saleId, WithoutPayment(st.sales[k].payments, paymentId))
      && forall i :: 0 <= i < |st.sales| && st.sales[i].id == saleId ==>
           (r.sales[i].status == Unpaid <==> r.sales[i].balance > 0 && TotalPaid(r.sales[i].payments) == 0)
  {
    match SaleIndex(st.sales, saleId)
    case None => st
    case Some(k) =>
      var sale := st.sales[k];
      st.(sales := ReplaceSale(st.sales, saleId,
                               Reconcile(sale, WithoutPayment(sale.payments, paymentId), PaidPartialOrUnpaid)))
  }

  /** Deleting payments from a balanced sale raises what is still owed by
      exactly the deleted amounts. */
  lemma DeletePaymentRestoresBalance(st: Store, saleId: string, paymentId: string)
    requires SaleIndex(st.sales, saleId).Some?
    requires Balanced(st.sales[SaleIndex(st.sales, saleId).value])
    ensures var k := SaleIndex(st.sales, saleId).value;
      forall i :: 0 <= i < |st.sales| && st.sales[i].id == saleId ==>
        DeletePayment(st, saleId, paymentId).sales[i].balance
          == st.sales[k].balance + TotalPaid(PaymentsWithId(st.sales[k].payments, paymentId))
  {
    var k := SaleIndex(st.sales, saleId).value;
    WithoutPaymentLowersTotal(st.sales[k].payments, paymentId);
  }

  /** Every payment with the corrected payment's id is replaced by it. */
  function ReplacePayment(payments: seq<SalePayment>, updated: SalePayment): (r: seq<SalePayment>)
    ensures |r| == |payments|
    ensures forall i :: 0 <= i < |payments| && payments[i].id != updated.id ==> r[i] == payments[i]
    ensures forall i :: 0 <= i < |payments| && payments[i].id == updated.id ==> r[i] == updated
  {
    MapWhere(payments, (p: SalePayment) => p.id == updated.id, (_: SalePayment) => updated)
  }

  /** `handleUpdatePaymentInSale`: replaces the matching payments (none, if
      the id is unknown) and recomputes with the PAID/PARTIAL rule. */
  function UpdatePayment(st: Store, saleId: string, updated: SalePayment): (r: Store)
    ensures SaleIndex(st.sales, saleId).None? ==> r == st
    ensures OnlySaleChanged(st, r, saleId)
    ensures SaleIndex(st.sales, saleId).Some? ==>
      var k := SaleIndex(st.sales, saleId).value;
      && SaleSettled(st, r, saleId, ReplacePayment(st.sales[k].payments, updated))
      && forall i :: 0 <= i < |st.sales| && st.sales[i].id == saleId ==> r.sales[i].status != Unpaid
  {
    match SaleIndex(st.sales, saleId)
    case None => st
    case Some(k) =>
      var sale := st.sales[k];
      st.(sales := ReplaceSale(st.sales, saleId,
                               Reconcile(sale, ReplacePayment(sale.payments, updated), PaidOrPartial)))
  }

  // ---------------------------------------------------------------------
  // Load migration

  /** A sale from an older snapshot, with no payment list (or an empty one),
      gets one payment for its whole price under its legacy payMethod and is
      marked settled; any other sale is kept as stored. */
  function MigrateSale(s: Sale): (r: Sale)
    ensures |s.payments| > 0 ==> r == s
    ensures |r.payments| == 1 || r == s
    ensures |s.payments| == 0 ==>
      && r == s.(payments := r.payments, balance := 0, status := Paid)
      && |r.payments| == 1
      && r.payments[0].id == LegacyPaymentPrefix + s.id
      && r.payments[0].amount == s.totalPrice
      && r.payments[0].payMethod == (if s.paymentMethod == "" then DefaultPaymentMethod else s.paymentMethod)
      && r.payments[0].date == s.date
      && Balanced(r) && StatusAgrees(r)
  {
    if |s.payments| == 0 then
      var payMethod := if s.paymentMethod == "" then DefaultPaymentMethod else s.paymentMethod;
      var payment := SalePayment(LegacyPaymentPrefix + s.id, s.totalPrice, payMethod, s.date);
      TotalPaidOne(payment);
      s.(payments := [payment], balance := 0, status := Paid)
    else s
  }

  function MigrateSales(sales: seq<Sale>): (r: seq<Sale>)
    ensures |r| == |sales|
    ensures forall i :: 0 <= i < |sales| ==> r[i] == MigrateSale(sales[i])
  {
    if |sales| == 0 then [] else [MigrateSale(sales[0])] + MigrateSales(sales[1..])
  }

  /** After loading, every sale has a payment, and the ledger's money
      invariant holds of every sale provided it held of the sales that were
      already in the current format. */
  lemma MigrationEstablishesInvariant(sales: seq<Sale>)
    requires forall i :: 0 <= i < |sales| && |sales[i].payments| > 0 ==> Balanced(sales[i]) && StatusAgrees(sales[i])
    ensures forall i :: 0 <= i < |MigrateSales(sales)| ==> |MigrateSales(sales)[i].payments| > 0
    ensures AllBalanced(MigrateSales(sales))
    ensures forall i :: 0 <= i < |MigrateSales(sales)| ==> StatusAgrees(MigrateSales(sales)[i])
  {
  }

  /** Loading a snapshot twice migrates nothing the second time. */
  lemma MigrationIdempotent(sales: seq<Sale>)
    ensures MigrateSales(MigrateSales(sales)) == MigrateSales(sales)
  {
    var once := MigrateSales(sales);
    assert forall i :: 0 <= i < |once| ==> MigrateSale(once[i]) == once[i];
  }

  // ---------------------------------------------------------------------
  // Properties across handlers

  /** Creating a sale under a fresh id and then deleting it gives back the
      store exactly as it was: every product's quantity and every sale. */
  lemma CreateThenDeleteRestores(st: Store, items: seq<SaleItem>, subTotal: int, discount: int, payMethod: string,
                                 client: Option<Client>, amountPaid: Option<int>, stamp: Stamp)
    requires forall i :: 0 <= i < |st.sales| ==> st.sales[i].id != stamp.saleId
    ensures DeleteSale(ProcessSale(st, items, subTotal, discount, payMethod, client, amountPaid, stamp), stamp.saleId) == st
  {
    var sale := NewSale(items, subTotal, discount, payMethod, client, amountPaid, stamp);
    var mid := ProcessSale(st, items, subTotal, discount, payMethod, client, amountPaid, stamp);
    assert mid.sales == st.sales + [sale];
    assert SaleIndex(mid.sales, stamp.saleId) == Some(|st.sales|);
    var keep := (s: Sale) => s.id != stamp.saleId;
    FilterAppend(st.sales, [sale], keep);
    FilterKeepsAll(st.sales, keep);
    assert Filter([sale], keep) == [];
    ReturnUndoesTake(st.products, items);
  }

  // ---------------------------------------------------------------------
  // The ledger as a command log

  /** The handlers the sales screens call, one constructor per handler. */
  datatype Command =
    | CreateSale(items: seq<SaleItem>, subTotal: int, discount: int, payMethod: string,
                 client: Option<Client>, amountPaid: Option<int>, stamp: Stamp)
    | CancelSale(saleId: string)
    | EditSale(sale: Sale)
    | AddPaymentTo(saleId: string, payment: SalePayment)
    | RemovePayment(saleId: string, paymentId: string)
    | CorrectPayment(saleId: string, payment: SalePayment)

  function Apply(st: Store, c: Command): Store
  {
    match c
    case CreateSale(items, subTotal, discount, payMethod, client, amountPaid, stamp) =>
      ProcessSale(st, items, subTotal, discount, payMethod, client, amountPaid, stamp)
    case CancelSale(saleId) => DeleteSale(st, saleId)
    case EditSale(sale) => UpdateSale(st, sale)
    case AddPaymentTo(saleId, payment) => AddPayment(st, saleId, payment)
    case RemovePayment(saleId, paymentId) => DeletePayment(st, saleId, paymentId)
    case CorrectPayment(saleId, payment) => UpdatePayment(st, saleId, payment)
  }

  function Run(st: Store, cs: seq<Command>): Store
  {
    if |cs| == 0 then st else Apply(Run(st, cs[..|cs| - 1]), cs[|cs| - 1])
  }

  /** Every sale's payments plus its balance make its price, and its status
      matches its balance. */
  ghost predicate Consistent(sales: seq<Sale>)
  {
    AllBalanced(sales) && forall i :: 0 <= i < |sales| ==> StatusAgrees(sales[i])
  }

  /** A sale edit only keeps the ledger consistent when the edited record is. */
  ghost predicate Admissible(c: Command)
  {
    c.EditSale? ==> Balanced(c.sale) && StatusAgrees(c.sale)
  }

  /** One handler keeps every sale consistent. */
  lemma ApplyKeepsConsistent(st: Store, c: Command)
    requires Consistent(st.sales) && Admissible(c)
    ensures Consistent(Apply(st, c).sales)
  {
    var r := Apply(st, c);
    match c
    case CancelSale(saleId) =>
      if SaleIndex(st.sales, saleId).Some? {
        forall i | 0 <= i < |r.sales|
          ensures Balanced(r.sales[i]) && StatusAgrees(r.sales[i])
        {
          var j :| 0 <= j < |st.sales| && st.sales[j] == r.sales[i];
        }
      }
    case _ =>
  }

  /** Whatever sequence of handlers runs, every sale stays consistent:
      what was paid plus what is owed is the price, and the status matches. */
  lemma {:induction false} RunKeepsConsistent(st: Store, cs: seq<Command>)
    requires Consistent(st.sales)
    requires forall i :: 0 <= i < |cs| ==> Admissible(cs[i])
    ensures Consistent(Run(st, cs).sales)
    decreases |cs|
  {
    if |cs| > 0 {
      RunKeepsConsistent(st, cs[..|cs| - 1]);
      ApplyKeepsConsistent(Run(st, cs[..|cs| - 1]), cs[|cs| - 1]);
    }
  }
}

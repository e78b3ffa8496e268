/** The figures of the reports screen (components/Reports.tsx): revenue,
    expenses, the estimated cost of goods sold and the profits derived from
    it, the value of the stock, and the five best-selling products and the
    five best clients. Everything is read-only over the shop's lists. */
module Reports {
  import opened Collections
  import opened Types
  import opened Grouping
  import Ledger

  /** Length of every ranking the screen shows. */
  const TopCount: nat := 5

  // ---------------------------------------------------------------------
  // Money totals

  function SalePrice(s: Sale): int { s.totalPrice }

  function ExpenseAmount(e: Expense): int { e.amount }

  /** Revenue: the recorded totals of all sales. */
  function TotalSales(sales: seq<Sale>): int
  {
    SumOf(sales, SalePrice)
  }

  /** The amounts of all expenses. */
  function TotalExpenses(expenses: seq<Expense>): int
  {
    SumOf(expenses, ExpenseAmount)
  }

  /** Recording a sale raises revenue by exactly the sale's clamped total. */
  lemma ProcessSaleAddsItsTotal(st: Store, items: seq<SaleItem>, subTotal: int, discount: int, payMethod: string,
                                client: Option<Client>, amountPaid: Option<int>, stamp: Ledger.Stamp)
    ensures TotalSales(Ledger.ProcessSale(st, items, subTotal, discount, payMethod, client, amountPaid, stamp).sales)
         == TotalSales(st.sales) + Ledger.SaleTotal(subTotal, discount)
  {
    var r := Ledger.ProcessSale(st, items, subTotal, discount, payMethod, client, amountPaid, stamp);
    assert r.sales[..|r.sales| - 1] == st.sales;
  }

  // ---------------------------------------------------------------------
  // Cost of goods sold

  /** Position of the first product with this id, if any. */
  function ProductIndex(products: seq<Product>, productId: string): (r: Option<nat>)
    ensures r.None? <==> forall i :: 0 <= i < |products| ==> products[i].id != productId
    ensures r.Some? ==> r.value < |products| && products[r.value].id == productId
    ensures r.Some? ==> forall j :: 0 <= j < r.value ==> products[j].id != productId
  {
    FindFirst(products, (p: Product) => p.id == productId)
  }

  /** The current purchase price of the first product with the id, and 0
      for a product that no longer exists. */
  function UnitCost(products: seq<Product>, productId: string): int
  {
    match ProductIndex(products, productId)
    case None => 0
    case Some(k) => products[k].purchasePrice
  }

  /** Cost of one sale's lines at today's purchase prices. */
  function ItemsCost(products: seq<Product>, items: seq<SaleItem>): int
  {
    if |items| == 0 then 0
    else
      var it := items[|items| - 1];
      ItemsCost(products, items[..|items| - 1]) + UnitCost(products, it.productId) * it.quantity
  }

  /** `totalCOGS`, accumulated sale by sale and line by line. */
  function Cogs(products: seq<Product>, sales: seq<Sale>): int
  {
    if |sales| == 0 then 0
    else Cogs(products, sales[..|sales| - 1]) + ItemsCost(products, sales[|sales| - 1].items)
  }

  /** The cost of goods of a history is the sum over its parts. */
  lemma {:induction false} CogsAppend(products: seq<Product>, a: seq<Sale>, b: seq<Sale>)
    ensures Cogs(products, a + b) == Cogs(products, a) + Cogs(products, b)
    decreases |b|
  {
    if |b| == 0 {
      assert a + b == a;
    } else {
      var b' := b[..|b| - 1];
      assert (a + b)[..|a + b| - 1] == a + b';
      assert (a + b)[|a + b| - 1] == b[|b| - 1];
      CogsAppend(products, a, b');
    }
  }

  /** Lines whose products are all gone cost nothing. */
  lemma {:induction false} DeletedProductsCostNothing(products: seq<Product>, items: seq<SaleItem>)
    requires forall k, i :: 0 <= k < |items| && 0 <= i < |products| ==> products[i].id != items[k].productId
    ensures ItemsCost(products, items) == 0
    decreases |items|
  {
    if |items| > 0 {
      DeletedProductsCostNothing(products, items[..|items| - 1]);
    }
  }

  /** With non-negative purchase prices and quantities the cost of goods is
      non-negative. */
  lemma {:induction false} CogsNonNegative(products: seq<Product>, sales: seq<Sale>)
    requires forall i :: 0 <= i < |products| ==> products[i].purchasePrice >= 0
    requires forall s, k :: 0 <= s < |sales| && 0 <= k < |sales[s].items| ==> sales[s].items[k].quantity >= 0
    ensures Cogs(products, sales) >= 0
    decreases |sales|
  {
    if |sales| > 0 {
      CogsNonNegative(products, sales[..|sales| - 1]);
      ItemsCostNonNegative(products, sales[|sales| - 1].items);
    }
  }

  lemma {:induction false} ItemsCostNonNegative(products: seq<Product>, items: seq<SaleItem>)
    requires forall i :: 0 <= i < |products| ==> products[i].purchasePrice >= 0
    requires forall k :: 0 <= k < |items| ==> items[k].quantity >= 0
    ensures ItemsCost(products, items) >= 0
    decreases |items|
  {
    if |items| > 0 {
      ItemsCostNonNegative(products, items[..|items| - 1]);
      var c := UnitCost(products, items[|items| - 1].productId);
      assert c >= 0;
    }
  }

  /** Two catalogues that differ only in stock levels. */
  predicate SameButStock(p: seq<Product>, q: seq<Product>)
  {
    |p| == |q| && forall i :: 0 <= i < |p| ==> q[i] == p[i].(quantity := q[i].quantity)
  }

  /** Stock levels do not enter the cost of goods. */
  lemma {:induction false} ItemsCostIgnoresStock(p: seq<Product>, q: seq<Product>, items: seq<SaleItem>)
    requires SameButStock(p, q)
    ensures ItemsCost(p, items) == ItemsCost(q, items)
    decreases |items|
  {
    if |items| > 0 {
      ItemsCostIgnoresStock(p, q, items[..|items| - 1]);
      var id := items[|items| - 1].productId;
      var a := ProductIndex(p, id);
      var b := ProductIndex(q, id);
      assert forall i :: 0 <= i < |p| ==> p[i].id == q[i].id && p[i].purchasePrice == q[i].purchasePrice;
      if a.Some? && b.Some? {
        assert a.value == b.value;
      }
    }
  }

  lemma {:induction false} CogsIgnoresStock(p: seq<Product>, q: seq<Product>, sales: seq<Sale>)
    requires SameButStock(p, q)
    ensures Cogs(p, sales) == Cogs(q, sales)
    decreases |sales|
  {
    if |sales| > 0 {
      CogsIgnoresStock(p, q, sales[..|sales| - 1]);
      ItemsCostIgnoresStock(p, q, sales[|sales| - 1].items);
    }
  }

  /** Recording a sale adds exactly the cost of its lines to the cost of
      goods: the stock it takes does not reprice earlier sales. */
  lemma ProcessSaleAddsItsCost(st: Store, items: seq<SaleItem>, subTotal: int, discount: int, payMethod: string,
                               client: Option<Client>, amountPaid: Option<int>, stamp: Ledger.Stamp)
    ensures var r := Ledger.ProcessSale(st, items, subTotal, discount, payMethod, client, amountPaid, stamp);
      Cogs(r.products, r.sales) == Cogs(st.products, st.sales) + ItemsCost(st.products, items)
  {
    var r := Ledger.ProcessSale(st, items, subTotal, discount, payMethod, client, amountPaid, stamp);
    assert SameButStock(st.products, r.products);
    CogsIgnoresStock(st.products, r.products, r.sales);
    assert r.sales[..|r.sales| - 1] == st.sales;
  }

  // ---------------------------------------------------------------------
  // Profit

  /** The financial block of the screen. */
  datatype Financials = Financials(totalSales: int, totalExpenses: int, cogs: int, grossProfit: int, netProfit: int)

  /** The financial block: revenue less the cost of goods is the gross
      profit, and the gross profit less the expenses is the net profit. */
  function Summarize(products: seq<Product>, sales: seq<Sale>, expenses: seq<Expense>): Financials
  {
    var revenue := TotalSales(sales);
    var spent := TotalExpenses(expenses);
    var cost := Cogs(products, sales);
    var gross := revenue - cost;
    Financials(revenue, spent, cost, gross, gross - spent)
  }

  /** One more sale raises the gross and the net profit by its total less
      the cost of its lines at today's purchase prices. */
  lemma SummarizeAddsSale(products: seq<Product>, sales: seq<Sale>, expenses: seq<Expense>, s: Sale)
    ensures Summarize(products, sales + [s], expenses).grossProfit
         == Summarize(products, sales, expenses).grossProfit + s.totalPrice - ItemsCost(products, s.items)
    ensures Summarize(products, sales + [s], expenses).netProfit
         == Summarize(products, sales, expenses).netProfit + s.totalPrice - ItemsCost(products, s.items)
  {
    assert (sales + [s])[..|sales + [s]| - 1] == sales;
  }

  /** One more expense lowers the net profit by its amount and leaves the
      gross profit alone; so a non-negative expense never raises it. */
  lemma ExpenseLowersNetProfit(products: seq<Product>, sales: seq<Sale>, expenses: seq<Expense>, e: Expense)
    ensures Summarize(products, sales, expenses + [e]).netProfit
         == Summarize(products, sales, expenses).netProfit - e.amount
    ensures Summarize(products, sales, expenses + [e]).grossProfit
         == Summarize(products, sales, expenses).grossProfit
    ensures e.amount >= 0 ==>
      Summarize(products, sales, expenses + [e]).netProfit <= Summarize(products, sales, expenses).netProfit
  {
    assert (expenses + [e])[..|expenses + [e]| - 1] == expenses;
  }

  /** A sale whose lines cost nothing to buy adds its whole total to the
      gross profit. */
  lemma FreeGoodsAreAllProfit(st: Store, expenses: seq<Expense>, items: seq<SaleItem>, subTotal: int, discount: int,
                              payMethod: string, client: Option<Client>, amountPaid: Option<int>, stamp: Ledger.Stamp)
    requires forall k, i :: 0 <= k < |items| && 0 <= i < |st.products| ==> st.products[i].id != items[k].productId
    ensures var r := Ledger.ProcessSale(st, items, subTotal, discount, payMethod, client, amountPaid, stamp);
      Summarize(r.products, r.sales, expenses).grossProfit
        == Summarize(st.products, st.sales, expenses).grossProfit + Ledger.SaleTotal(subTotal, discount)
  {
    ProcessSaleAddsItsTotal(st, items, subTotal, discount, payMethod, client, amountPaid, stamp);
    ProcessSaleAddsItsCost(st, items, subTotal, discount, payMethod, client, amountPaid, stamp);
    DeletedProductsCostNothing(st.products, items);
  }

  // ---------------------------------------------------------------------
  // Stock value

  function ShelfValue(p: Product): int { p.price * p.quantity }

  function ShelfCost(p: Product): int { p.purchasePrice * p.quantity }

  function ShelfMargin(p: Product): int { (p.price - p.purchasePrice) * p.quantity }

  function Units(p: Product): int { p.quantity }

  /** `totalStockValue`: the stock at selling prices. */
  function StockValue(products: seq<Product>): int
  {
    SumOf(products, ShelfValue)
  }

  /** `totalStockCost`: the stock at purchase prices. */
  function StockCost(products: seq<Product>): int
  {
    SumOf(products, ShelfCost)
  }

  /** What the stock would earn over its purchase cost if sold at the listed prices. */
  function PotentialStockProfit(products: seq<Product>): int
  {
    StockValue(products) - StockCost(products)
  }

  /** Units on the shelves, all products together. */
  function ItemsInStock(products: seq<Product>): int
  {
    SumOf(products, Units)
  }

  /** The units a sale with these lines takes from a product. */
  function StockMoved(items: seq<SaleItem>): Product -> int
  {
    (p: Product) => Ledger.StockDelta(items, p.id)
  }

  /** A sale lowers the units on the shelves by what each product's first
      cart line takes from it, whatever the cart holds. */
  lemma TakeStockLowersItemsInStock(products: seq<Product>, items: seq<SaleItem>)
    ensures ItemsInStock(Ledger.TakeStock(products, items)) == ItemsInStock(products) - SumOf(products, StockMoved(items))
  {
    Ledger.TakeStockEffect(products, items);
    SumOfDifference(Ledger.TakeStock(products, items), Units, products, Units, StockMoved(items));
  }

  /** With one line per product, a product's stock moves by the quantity of
      its line, or not at all when the cart has none. */
  lemma StockDeltaOfDistinctLines(items: seq<SaleItem>, productId: string)
    requires forall a, b :: 0 <= a < b < |items| ==> items[a].productId != items[b].productId
    ensures forall k :: 0 <= k < |items| && items[k].productId == productId ==>
      Ledger.StockDelta(items, productId) == items[k].quantity
    ensures (forall k :: 0 <= k < |items| ==> items[k].productId != productId) ==>
      Ledger.StockDelta(items, productId) == 0
  {
  }

  /** The units one line takes from a product: its quantity for the line's
      own product, nothing for any other. */
  function LineMoves(line: SaleItem): Product -> int
  {
    (p: Product) => if p.id == line.productId then line.quantity else 0
  }

  /** With one line per product, adding a last line moves only that line's
      units on top of what the earlier lines move. */
  lemma LastLineMoves(items: seq<SaleItem>, p: Product)
    requires |items| > 0
    requires forall a, b :: 0 <= a < b < |items| ==> items[a].productId != items[b].productId
    ensures LineMoves(items[|items| - 1])(p) == StockMoved(items)(p) - StockMoved(items[..|items| - 1])(p)
  {
    var front := items[..|items| - 1];
    var last := items[|items| - 1];
    StockDeltaOfDistinctLines(items, p.id);
    StockDeltaOfDistinctLines(front, p.id);
    if p.id != last.productId {
      if k :| 0 <= k < |front| && front[k].productId == p.id {
        assert items[k] == front[k];
      } else {
        assert forall k :: 0 <= k < |items| ==> items[k].productId != p.id;
      }
    }
  }

  /** With distinct catalogue ids, one line per product and every line's
      product in the catalogue, the stock the cart moves adds up to the units
      it holds. */
  lemma {:induction false} CartMovesItsUnits(products: seq<Product>, items: seq<SaleItem>)
    requires forall i, j :: 0 <= i < j < |products| ==> products[i].id != products[j].id
    requires forall a, b :: 0 <= a < b < |items| ==> items[a].productId != items[b].productId
    requires forall k :: 0 <= k < |items| ==> exists i :: 0 <= i < |products| && products[i].id == items[k].productId
    ensures SumOf(products, StockMoved(items)) == SumOf(items, ItemQuantity)
    decreases |items|
  {
    if |items| == 0 {
      forall i | 0 <= i < |products| ensures StockMoved(items)(products[i]) == 0 {
        StockDeltaOfDistinctLines(items, products[i].id);
      }
      SumOfZero(products, StockMoved(items));
    } else {
      var front := items[..|items| - 1];
      var last := items[|items| - 1];
      CartMovesItsUnits(products, front);
      forall i | 0 <= i < |products|
        ensures LineMoves(last)(products[i]) == StockMoved(items)(products[i]) - StockMoved(front)(products[i])
      {
        LastLineMoves(items, products[i]);
      }
      SumOfDifference(products, LineMoves(last), products, StockMoved(items), StockMoved(front));
      var j :| 0 <= j < |products| && products[j].id == last.productId;
      SumOfSingleTerm(products, LineMoves(last), j);
    }
  }

  /** Taking the stock of a cart with one line per product, each for a
      product in a catalogue of distinct ids, lowers the units on the
      shelves by exactly the units in the cart. */
  lemma TakeStockLowersByUnitsSold(products: seq<Product>, items: seq<SaleItem>)
    requires forall i, j :: 0 <= i < j < |products| ==> products[i].id != products[j].id
    requires forall a, b :: 0 <= a < b < |items| ==> items[a].productId != items[b].productId
    requires forall k :: 0 <= k < |items| ==> exists i :: 0 <= i < |products| && products[i].id == items[k].productId
    ensures ItemsInStock(Ledger.TakeStock(products, items)) == ItemsInStock(products) - SumOf(items, ItemQuantity)
  {
    TakeStockLowersItemsInStock(products, items);
    CartMovesItsUnits(products, items);
  }

  /** Recording a sale whose cart holds one line per product, each for a
      product in a catalogue of distinct ids, lowers the units on the
      shelves by exactly the units sold. */
  lemma ProcessSaleLowersItemsInStock(st: Store, items: seq<SaleItem>, subTotal: int, discount: int, payMethod: string,
                                      client: Option<Client>, amountPaid: Option<int>, stamp: Ledger.Stamp)
    requires forall i, j :: 0 <= i < j < |st.products| ==> st.products[i].id != st.products[j].id
    requires forall a, b :: 0 <= a < b < |items| ==> items[a].productId != items[b].productId
    requires forall k :: 0 <= k < |items| ==> exists i :: 0 <= i < |st.products| && st.products[i].id == items[k].productId
    ensures ItemsInStock(Ledger.ProcessSale(st, items, subTotal, discount, payMethod, client, amountPaid, stamp).products)
      == ItemsInStock(st.products) - SumOf(items, ItemQuantity)
  {
    TakeStockLowersByUnitsSold(st.products, items);
    Ledger.ProcessSaleTakesStock(st, items, subTotal, discount, payMethod, client, amountPaid, stamp);
  }

  /** The potential profit is the per-product margin summed over the stock. */
  lemma {:induction false} PotentialProfitIsMargin(products: seq<Product>)
    ensures PotentialStockProfit(products) == SumOf(products, ShelfMargin)
    decreases |products|
  {
    if |products| > 0 {
      PotentialProfitIsMargin(products[..|products| - 1]);
      var p := products[|products| - 1];
      assert ShelfMargin(p) == ShelfValue(p) - ShelfCost(p) by {
        assert (p.price - p.purchasePrice) * p.quantity == p.price * p.quantity - p.purchasePrice * p.quantity;
      }
    }
  }

  // ---------------------------------------------------------------------
  // Best-selling products

  /** Every line of every sale, sale by sale in history order. */
  function AllItems(sales: seq<Sale>): seq<SaleItem>
  {
    if |sales| == 0 then [] else AllItems(sales[..|sales| - 1]) + sales[|sales| - 1].items
  }

  function ItemProduct(it: SaleItem): string { it.productId }

  function ItemName(it: SaleItem): string { it.productName }

  function ItemQuantity(it: SaleItem): int { it.quantity }

  function ItemRevenue(it: SaleItem): int { it.quantity * it.price }

  /** `productSalesMap`: one entry per product id that was ever sold, named
      after its first line, with the units sold and the revenue at the
      prices the lines recorded. */
  function ProductSales(sales: seq<Sale>): (r: seq<Group>)
    ensures DistinctKeys(r)
    ensures forall j :: 0 <= j < |AllItems(sales)| ==> HasKey(r, AllItems(sales)[j].productId)
    ensures forall i :: 0 <= i < |r| ==> SumsOf(AllItems(sales), ItemProduct, ItemQuantity, ItemRevenue, r[i])
    ensures forall i :: 0 <= i < |r| ==> NamedByFirst(AllItems(sales), ItemProduct, ItemName, r[i])
  {
    var items := AllItems(sales);
    TallyCovers(items, ItemProduct, ItemName, ItemQuantity, ItemRevenue);
    TallySums(items, ItemProduct, ItemName, ItemQuantity, ItemRevenue);
    TallyNames(items, ItemProduct, ItemName, ItemQuantity, ItemRevenue);
    Tally(items, ItemProduct, ItemName, ItemQuantity, ItemRevenue)
  }

  function GroupCount(g: Group): int { g.count }

  function GroupTotal(g: Group): int { g.total }

  /** `topProducts`: at most five entries of the product record, most units
      first, and none left out that sold more units than one shown. */
  function TopProducts(sales: seq<Sale>): (r: seq<Group>)
    ensures |r| == if |ProductSales(sales)| < TopCount then |ProductSales(sales)| else TopCount
    ensures Descending(r, GroupCount)
    ensures forall i :: 0 <= i < |r| ==> r[i] in ProductSales(sales)
    ensures multiset(r) <= multiset(ProductSales(sales))
    ensures forall g :: g in ProductSales(sales) && g !in r ==>
      forall i :: 0 <= i < |r| ==> g.count <= r[i].count
  {
    Top(ProductSales(sales), TopCount, GroupCount)
  }

  // ---------------------------------------------------------------------
  // Best clients

  /** A sale names its client: both the client's id and name are present and non-empty. */
  predicate HasClient(s: Sale)
  {
    && s.clientId.Some? && s.clientId.value != ""
    && s.clientName.Some? && s.clientName.value != ""
  }

  function ClientKey(s: Sale): string { if s.clientId.Some? then s.clientId.value else "" }

  function ClientName(s: Sale): string { if s.clientName.Some? then s.clientName.value else "" }

  function One(s: Sale): int { 1 }

  /** What one sale contributes to its client's visits and spending. */
  function Visit(s: Sale): int { if HasClient(s) then 1 else 0 }

  function Spend(s: Sale): int { if HasClient(s) then s.totalPrice else 0 }

  /** Every sale with a client has its client's group in the tally of the
      sales with a client. */
  lemma ClientTallyCovers(sales: seq<Sale>)
    ensures forall j :: 0 <= j < |sales| && HasClient(sales[j]) ==>
      HasKey(Tally(Filter(sales, HasClient), ClientKey, ClientName, One, SalePrice), sales[j].clientId.value)
  {
    var withClient := Filter(sales, HasClient);
    TallyCovers(withClient, ClientKey, ClientName, One, SalePrice);
    forall j | 0 <= j < |sales| && HasClient(sales[j])
      ensures HasKey(Tally(withClient, ClientKey, ClientName, One, SalePrice), sales[j].clientId.value)
    {
      var k :| 0 <= k < |withClient| && withClient[k] == sales[j];
    }
  }

  /** Tallying only the sales with a client is tallying every sale with
      `Visit` and `Spend`, which give nothing for a sale without one. */
  lemma ClientTallySums(sales: seq<Sale>)
    ensures forall i :: 0 <= i < |Tally(Filter(sales, HasClient), ClientKey, ClientName, One, SalePrice)| ==>
      && Tally(Filter(sales, HasClient), ClientKey, ClientName, One, SalePrice)[i].count
           == SumWhere(sales, ClientKey, Tally(Filter(sales, HasClient), ClientKey, ClientName, One, SalePrice)[i].key, Visit)
      && Tally(Filter(sales, HasClient), ClientKey, ClientName, One, SalePrice)[i].total
           == SumWhere(sales, ClientKey, Tally(Filter(sales, HasClient), ClientKey, ClientName, One, SalePrice)[i].key, Spend)
  {
    var withClient := Filter(sales, HasClient);
    var r := Tally(withClient, ClientKey, ClientName, One, SalePrice);
    TallySums(withClient, ClientKey, ClientName, One, SalePrice);
    forall i | 0 <= i < |r|
      ensures r[i].count == SumWhere(sales, ClientKey, r[i].key, Visit)
      ensures r[i].total == SumWhere(sales, ClientKey, r[i].key, Spend)
    {
      assert SumsOf(withClient, ClientKey, One, SalePrice, r[i]);
      SumWhereFilter(sales, HasClient, ClientKey, r[i].key, One, Visit);
      SumWhereFilter(sales, HasClient, ClientKey, r[i].key, SalePrice, Spend);
    }
  }

  /** `clientSalesMap`: one entry per client id of a sale with a client,
      named after that client's first such sale; `count` is the number of
      their sales (visits) and `total` what those sales came to. Sales
      without a client are counted nowhere. */
  function ClientSales(sales: seq<Sale>): (r: seq<Group>)
    ensures DistinctKeys(r)
    ensures forall j :: 0 <= j < |sales| && HasClient(sales[j]) ==> HasKey(r, sales[j].clientId.value)
    ensures forall i :: 0 <= i < |r| ==>
      r[i].count == SumWhere(sales, ClientKey, r[i].key, Visit) &&
      r[i].total == SumWhere(sales, ClientKey, r[i].key, Spend)
    ensures forall i :: 0 <= i < |r| ==> NamedByFirst(Filter(sales, HasClient), ClientKey, ClientName, r[i])
  {
    ClientTallyCovers(sales);
    ClientTallySums(sales);
    TallyNames(Filter(sales, HasClient), ClientKey, ClientName, One, SalePrice);
    Tally(Filter(sales, HasClient), ClientKey, ClientName, One, SalePrice)
  }

  /** `topClients`: at most five clients, biggest spenders first, and none
      left out that spent more than one shown. */
  function TopClients(sales: seq<Sale>): (r: seq<Group>)
    ensures |r| == if |ClientSales(sales)| < TopCount then |ClientSales(sales)| else TopCount
    ensures Descending(r, GroupTotal)
    ensures forall i :: 0 <= i < |r| ==> r[i] in ClientSales(sales)
    ensures multiset(r) <= multiset(ClientSales(sales))
    ensures forall g :: g in ClientSales(sales) && g !in r ==>
      forall i :: 0 <= i < |r| ==> g.total <= r[i].total
  {
    Top(ClientSales(sales), TopCount, GroupTotal)
  }
}

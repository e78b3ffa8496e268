/** The figures of the dashboard (components/Dashboard.tsx) that do not
    depend on the calendar: the value of the stock, the number of products
    at or below their alert threshold, the products per category with the
    five largest categories, total revenue and the cash flow. */
module Dashboard {
  import opened Collections
  import opened Types
  import opened Grouping
  import Ledger
  import Reports

  /** The category a product without one is counted under. */
  const OtherCategory: string := "Autre"

  /** Number of categories the distribution shows. */
  const TopCategories: nat := 5

  /** A product at or below its alert threshold. */
  predicate IsLowStock(p: Product)
  {
    p.quantity <= p.minThreshold
  }

  /** The card figures; the expiry counts are not part of this model. */
  datatype InventoryStats = InventoryStats(totalProducts: nat, totalValue: int, lowStockCount: nat, totalSales: int)

  /** The `lowStock` counter: one more for every product at or below its
      alert threshold, taken in catalogue order. It is the number of
      products the low-stock filter keeps, before the list shown is cut to
      five. */
  function LowStockCount(products: seq<Product>): (n: nat)
    ensures n == Count(products, IsLowStock)
    ensures n <= |products|
    ensures n == |products| <==> forall i :: 0 <= i < |products| ==> IsLowStock(products[i])
    ensures n == 0 <==> forall i :: 0 <= i < |products| ==> !IsLowStock(products[i])
  {
    if |products| == 0 then 0
    else
      var front := products[..|products| - 1];
      assert forall i :: 0 <= i < |front| ==> front[i] == products[i];
      LowStockCount(front) + (if IsLowStock(products[|products| - 1]) then 1 else 0)
  }

  /** The stats the `useEffect` computes from the products and the sales. */
  function Stats(products: seq<Product>, sales: seq<Sale>): InventoryStats
  {
    InventoryStats(|products|, Reports.StockValue(products), LowStockCount(products), Reports.TotalSales(sales))
  }

  /** A sale can only add products to the low-stock count: with every line
      taking a non-negative quantity, every product low before is low after. */
  lemma SaleNeverClearsLowStock(st: Store, items: seq<SaleItem>, subTotal: int, discount: int, payMethod: string,
                                client: Option<Client>, amountPaid: Option<int>, stamp: Ledger.Stamp)
    requires forall k :: 0 <= k < |items| ==> items[k].quantity >= 0
    ensures var r := Ledger.ProcessSale(st, items, subTotal, discount, payMethod, client, amountPaid, stamp);
      LowStockCount(st.products) <= LowStockCount(r.products)
  {
    var r := Ledger.ProcessSale(st, items, subTotal, discount, payMethod, client, amountPaid, stamp);
    forall i | 0 <= i < |st.products| && IsLowStock(st.products[i])
      ensures IsLowStock(r.products[i])
    {
      var line := Ledger.LineFor(items, st.products[i].id);
      if line.Some? {
        var k :| 0 <= k < |items| && items[k] == line.value;
      }
    }
    CountMonotone(st.products, IsLowStock, r.products, IsLowStock);
  }

  /** With non-negative prices, a sale taking non-negative quantities can
      only lower the value of the stock (`totalValue`). */
  lemma SaleLowersStockValue(st: Store, items: seq<SaleItem>, subTotal: int, discount: int, payMethod: string,
                             client: Option<Client>, amountPaid: Option<int>, stamp: Ledger.Stamp)
    requires forall i :: 0 <= i < |st.products| ==> st.products[i].price >= 0
    requires forall k :: 0 <= k < |items| ==> items[k].quantity >= 0
    ensures var r := Ledger.ProcessSale(st, items, subTotal, discount, payMethod, client, amountPaid, stamp);
      Reports.StockValue(r.products) <= Reports.StockValue(st.products)
  {
    var r := Ledger.ProcessSale(st, items, subTotal, discount, payMethod, client, amountPaid, stamp);
    forall i | 0 <= i < |r.products|
      ensures Reports.ShelfValue(r.products[i]) <= Reports.ShelfValue(st.products[i])
    {
      var p := st.products[i];
      var q := r.products[i];
      var line := Ledger.LineFor(items, p.id);
      if line.Some? {
        var k :| 0 <= k < |items| && items[k] == line.value;
        assert q.quantity <= p.quantity;
        assert p.price * q.quantity <= p.price * p.quantity by {
          assert p.price * (p.quantity - q.quantity) >= 0;
        }
      }
    }
    SumOfMonotone(r.products, Reports.ShelfValue, st.products, Reports.ShelfValue);
  }

  /** The product's category name, or the catch-all category when it has none. */
  function CategoryOf(p: Product): (c: string)
    ensures c != ""
    ensures p.categoryName != "" ==> c == p.categoryName
    ensures p.categoryName == "" ==> c == OtherCategory
  {
    if p.categoryName == "" then OtherCategory else p.categoryName
  }

  function OneProduct(p: Product): int { 1 }

  function NoAmount(p: Product): int { 0 }

  lemma {:induction false} CountingOnes(products: seq<Product>)
    ensures SumOf(products, OneProduct) == |products|
    decreases |products|
  {
    if |products| > 0 {
      CountingOnes(products[..|products| - 1]);
    }
  }

  /** `catCounts`: one entry per category, named by the category itself,
      counting the products in it; every product is counted exactly once,
      so the counts add up to the number of products. */
  function CategoryCounts(products: seq<Product>): (r: seq<Group>)
    ensures DistinctKeys(r)
    ensures forall j :: 0 <= j < |products| ==> HasKey(r, CategoryOf(products[j]))
    ensures forall i :: 0 <= i < |r| ==> exists j :: 0 <= j < |products| && CategoryOf(products[j]) == r[i].key
    ensures forall i :: 0 <= i < |r| ==> r[i].name == r[i].key
    ensures forall i :: 0 <= i < |r| ==> r[i].count == SumWhere(products, CategoryOf, r[i].key, OneProduct)
    ensures CountTotal(r) == |products|
  {
    TallyCovers(products, CategoryOf, CategoryOf, OneProduct, NoAmount);
    TallySums(products, CategoryOf, CategoryOf, OneProduct, NoAmount);
    TallyNames(products, CategoryOf, CategoryOf, OneProduct, NoAmount);
    TallyCountTotal(products, CategoryOf, CategoryOf, OneProduct, NoAmount);
    TallyOnlyOccurring(products, CategoryOf, CategoryOf, OneProduct, NoAmount);
    CountingOnes(products);
    Tally(products, CategoryOf, CategoryOf, OneProduct, NoAmount)
  }

  /** `catData` without the percentages: at most five categories, largest
      first, none left out that holds more products than one shown. */
  function CategoryDistribution(products: seq<Product>): (r: seq<Group>)
    ensures |r| == if |CategoryCounts(products)| < TopCategories then |CategoryCounts(products)| else TopCategories
    ensures Descending(r, Reports.GroupCount)
    ensures forall i :: 0 <= i < |r| ==> r[i] in CategoryCounts(products)
    ensures multiset(r) <= multiset(CategoryCounts(products))
    ensures forall g :: g in CategoryCounts(products) && g !in r ==>
      forall i :: 0 <= i < |r| ==> g.count <= r[i].count
  {
    Top(CategoryCounts(products), TopCategories, Reports.GroupCount)
  }

  /** The dashboard's cash flow: total revenue less total expenses. */
  function CashFlow(products: seq<Product>, sales: seq<Sale>, expenses: seq<Expense>): int
  {
    Stats(products, sales).totalSales - Reports.TotalExpenses(expenses)
  }

  /** The dashboard's cash flow is the report's net profit with the cost of
      goods added back: it does not deduct what the goods cost. */
  lemma CashFlowIsNetProfitPlusCogs(products: seq<Product>, sales: seq<Sale>, expenses: seq<Expense>)
    ensures CashFlow(products, sales, expenses)
         == Reports.Summarize(products, sales, expenses).netProfit + Reports.Summarize(products, sales, expenses).cogs
  {
  }
}

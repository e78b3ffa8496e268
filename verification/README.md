# cosmestock ledger — a Dafny model

cosmestock is a point-of-sale and stock application for a small cosmetics
shop. Money is in whole FCFA. This project models its business logic as pure
functions on immutable sequences and proves what that logic promises.

- **Ledger** (`App.tsx`). A sale takes stock out of the catalogue and records
  its total and its first payment. Deleting a sale gives the stock back.
  Payments can be added, deleted or corrected afterwards; each time the
  balance and the status (PAID, PARTIAL, UNPAID) are recomputed. Sales saved
  by an older version are migrated on load.
- **Cart** (`components/POS.tsx`). The register's cart keeps at most one line
  per product. Products picked from the register's grid or by a typed
  barcode stay between 1 unit and their stock. A product sent from the
  inventory's sell button, or found by the camera scan, is added without a
  stock check (see Findings). The cart computes the
  subtotal, the discounted total, a partial payment or the change, and hands
  the sale to the ledger at checkout.
- **Users** and **Login** (`components/UserManagement.tsx`,
  `components/Login.tsx`). Employee accounts have usernames that are unique
  ignoring case; an account cannot delete itself or the last account. Sign-in
  takes the first account whose username matches ignoring case and whose PIN
  matches exactly.
- **CsvImport** (`components/ImportTools.tsx`). The product importer splits
  the text into lines and skips the header and blank lines. It splits each
  line on commas, strips quotes and fills in defaults.
- **Reports** and **Dashboard** (`components/Reports.tsx`,
  `components/Dashboard.tsx`). Read-only figures: sales, cost of goods sold,
  gross and net profit, stock value, low-stock count, per-product,
  per-client and per-category tallies, and their top-5 rankings.

Supporting modules:

- **Collections**: first match, filter, map-where, left-fold sums and counts, as the source's `find`, `filter`, `map` and `reduce`.
- **Text**: JavaScript's `toLowerCase`, `trim` and `split` on strings.
- **Grouping**: the "record keyed by id, then `Object.values`, sort, slice" pattern shared by every ranking.
- **Types**: the records.

Ids and dates, which the source draws from the clock and from `Math.random`, are parameters. Numeric parsing (`parseFloat`, `parseInt`) is a function parameter from text to an optional integer; `None` stands for NaN.

Behaviour of the code as written:

- A sale is created without checking stock. Stock is subtracted unconditionally and can go negative. The only guard is the cart's. `Cart.CheckoutKeepsStockNonNegative` proves it enough for a cart kept within stock. `Cart.SoldOutSaleGoesNegative` shows the sell-button path that bypasses it.
- There are no errors for an unknown sale, an unknown payment or a non-positive amount. An unknown sale id changes nothing. An unknown payment id leaves the payment list as it was, but balance and status are still recomputed.
- No operation is transactional beyond being one pure function.

## Model

| member | source | states |
|---|---|---|
| Ledger.LineFor | App.tsx:401 | The cart line a product takes from is the first line carrying its id; there is none exactly when no line carries it. |
| Ledger.TakeStockEffect | App.tsx:400-406 | Selling keeps the catalogue's length and every field but quantity; a product with no cart line keeps its quantity, one with a line loses that line's quantity. |
| Ledger.ReturnStockEffect | App.tsx:453-459 | Giving stock back keeps everything but quantity; a product on the deleted sale regains that line's quantity, any other is untouched. |
| Ledger.ReturnUndoesTake | App.tsx:453-459 | Giving back the same items after taking them restores the catalogue exactly. |
| Ledger.DistinctLinesTakeTheirQuantity | App.tsx:401-403 | With one line per product, each product in the cart loses exactly its own line's quantity. |
| Ledger.TakeStockNonNegative | App.tsx:403 | Stock stays non-negative when every cart line is within that product's stock (the sale itself never checks). |
| Ledger.SaleTotal | App.tsx:409 | The sale total is the discounted subtotal clamped at zero: never negative, never below subtotal minus discount. |
| Ledger.NewSale | App.tsx:409-440 | A new sale has exactly one payment: the amount given when it is below the total, else the whole total. It balances, is never UNPAID, is PARTIAL exactly when the amount given is short, and carries the client's id and name. |
| Ledger.ProcessSale | App.tsx:398-445 | Selling appends exactly the new sale, keeps earlier sales, and lowers each sold product's stock by its line's quantity, leaving other products unchanged. |
| Ledger.SaleIndex | App.tsx:449 | Sale lookup finds the first sale with the id, or reports that none exists. |
| Ledger.SalesWithout | App.tsx:462 | The surviving sales are exactly those with a different id; at least one fewer when the id occurs. |
| Ledger.SalesWithoutKeepsOrder | App.tsx:462 | Removing sales from two halves and joining them is removing from the whole, so survivors keep their order. |
| Ledger.SalesWithoutOne | App.tsx:462 | A single sale is dropped exactly when it carries the id. |
| Ledger.DeleteSale | App.tsx:448-464 | Deleting an unknown sale changes nothing. Otherwise the remaining sales are `SalesWithout` the id, and the products of the deleted sale regain their quantities; other products are untouched. |
| Ledger.ReplaceSale | App.tsx:468 | An edited sale replaces exactly the sales with its id, in place. |
| Ledger.UpdateSale | App.tsx:466-479 | Editing a sale leaves products alone and changes only the sales with that id. |
| Ledger.Reconcile | App.tsx:487-491 | After a recomputation, payments plus balance equal the total and the status agrees with the balance. Under the add/update rule the status is never UNPAID; under the delete rule it is UNPAID exactly when something is owed and nothing is paid. |
| Ledger.AddPayment | App.tsx:482-495 | Adding a payment appends it to the sale, whatever its amount. The sale balances and is not UNPAID; products and other sales are untouched; an unknown sale is a no-op. |
| Ledger.WithoutPayment | App.tsx:502 | Deleting a payment removes every payment with that id and keeps the others; an unknown id leaves the list as it was. |
| Ledger.WithoutPaymentKeepsOrder | App.tsx:502 | Removing payments from two halves and joining them is removing from the whole, so survivors keep their order. |
| Ledger.WithoutPaymentOne | App.tsx:502 | A single payment is dropped exactly when it carries the id. |
| Ledger.WithoutPaymentLowersTotal | App.tsx:502-503 | The amount paid after the deletion is the amount before less the amounts of the deleted payments. |
| Ledger.DeletePayment | App.tsx:497-513 | After deleting a payment the sale still balances and is UNPAID exactly when something is owed and nothing remains paid; nothing else changes. |
| Ledger.DeletePaymentRestoresBalance | App.tsx:497-508 | For a balanced sale, deleting payments raises the balance owed by exactly the deleted amounts. |
| Ledger.ReplacePayment | App.tsx:519 | A corrected payment keeps the list's length and replaces only the entries with its id. |
| Ledger.UpdatePayment | App.tsx:515-528 | After correcting a payment the sale balances and is not UNPAID; nothing else changes; an unknown sale is a no-op. |
| Ledger.MigrateSale | App.tsx:137-153 | A stored sale with payments is kept as is. One without payments gets one payment `pay_<id>` for its whole total, under its legacy method or "Espèces", and is marked PAID with zero balance. |
| Ledger.MigrateSales | App.tsx:136-154 | Migration works sale by sale and keeps the list's length and order. |
| Ledger.MigrationEstablishesInvariant | App.tsx:136-154 | After loading, every sale has a payment, balances and has a status that agrees with its balance, given that the sales already holding payments did. |
| Ledger.MigrationIdempotent | App.tsx:137 | Migrating twice gives the same sales as migrating once. |
| Ledger.CreateThenDeleteRestores | App.tsx:398-464 | Recording a sale under a fresh id and then deleting it restores the whole store: catalogue and sales. |
| Ledger.ApplyKeepsConsistent | App.tsx:482-528 | Any ledger command keeps every sale balanced with an agreeing status (sales created at the register or coming from an already consistent edit). |
| Ledger.RunKeepsConsistent | App.tsx:398-528 | Any sequence of such commands keeps every sale balanced with an agreeing status. |
| Cart.StockOf | components/POS.tsx:92-93 | The stock a cart line is capped by is the first catalogue entry's quantity, or 0 when the product is gone. |
| Cart.OfferedProducts | components/POS.tsx:56-61 | A product is offered exactly when it is in the catalogue, in stock, of the selected category (or all), and its lower-cased name contains the lower-cased search text. |
| Cart.OfferedProductsKeepsOrder | components/POS.tsx:57-61 | Filtering two halves of the catalogue and joining them is filtering the whole, so offered products keep the catalogue's order. |
| Cart.OfferedProductsOne | components/POS.tsx:57-61 | A single product is listed exactly when it passes all three filters. |
| Cart.AddToCart | components/POS.tsx:73-82 | A new product gets one line at quantity 1 with its current price; an existing line goes up by one, keeping its product, name and price snapshot, unless it is at the product's stock, in which case the cart is unchanged; other lines are untouched. |
| Cart.AddToCartKeepsInvariant | components/POS.tsx:75-80 | Adding keeps at most one line per product. It keeps every line between 1 and stock when the product added is in stock and is the catalogue's record for its id. |
| Cart.AddingSoldOutProductExceedsStock | components/POS.tsx:80 | Adding a sold-out product that has no line yet creates a 1-unit line beyond its stock. |
| Cart.SoldOutSaleGoesNegative | components/POS.tsx:50-82 | A product with zero stock, added through the sell-button path and checked out, leaves the catalogue at stock -1. |
| Cart.AddInStock | components/POS.tsx:161-166 | The guarded add leaves the cart unchanged for a product with no stock and adds it otherwise. |
| Cart.AddInStockKeepsInvariant | components/POS.tsx:161-166 | The guarded add keeps at most one line per product, each between 1 and the product's stock. |
| Cart.AddToCartRaisesSubTotal | components/POS.tsx:64 | Adding raises the subtotal by exactly one unit price, or by nothing at the stock cap. |
| Cart.RemoveFromCart | components/POS.tsx:84-86 | Removing drops exactly the lines for that product and keeps all others. |
| Cart.RemoveFromCartKeepsOrder | components/POS.tsx:85 | Removal keeps the remaining lines in their order. |
| Cart.RemoveFromCartOne | components/POS.tsx:85 | A single line is dropped exactly when it is for the product. |
| Cart.RemoveFromCartKeepsInvariant | components/POS.tsx:85 | Removing keeps at most one line per product, each within stock. |
| Cart.Bump | components/POS.tsx:94-99 | A quantity change is applied only when the new quantity stays between 1 and the stock; otherwise the line is unchanged. |
| Cart.UpdateQuantity | components/POS.tsx:88-104 | Changing a quantity touches only that product's lines, keeps the cart's length, and never leaves a changed line outside 1 to stock (0 for a deleted product). |
| Cart.UpdateQuantityKeepsInvariant | components/POS.tsx:88-104 | Changing quantities keeps at most one line per product, each within stock. |
| Cart.FinalTotal | components/POS.tsx:66 | The amount due is subtotal minus discount, clamped at zero. |
| Cart.ChangeDue | components/POS.tsx:71 | Change is never negative. It is positive exactly when more than the total was given, and then the total plus the change equals the amount given. |
| Cart.PartialOrChange | components/POS.tsx:70-71 | A payment is never both partial and owed change; a full payment is the amount kept plus the change. |
| Cart.Checkout | components/POS.tsx:106-136 | Checkout on an empty cart does nothing. Otherwise it hands the cart to the ledger's sale: one sale of exactly the cart is appended, with the cart's subtotal, the discount read from its field, the total, the payment method and the client, PARTIAL exactly when the payment is partial. Each product loses its line's quantity and keeps everything else. The change is the excess of the amount given over the total, and 0 when nothing or too little was given. |
| Cart.CheckoutKeepsStockNonNegative | components/POS.tsx:106-126 | A cart kept within stock never drives any product's quantity negative at checkout. |
| Users.AddUser | components/UserManagement.tsx:27-50 | A new account is refused when a field is empty or the username is taken ignoring case; otherwise exactly that account is appended. |
| Users.AddUserKeepsUsernamesUnique | components/UserManagement.tsx:31 | Adding keeps usernames unique ignoring case. |
| Users.DeleteUser | components/UserManagement.tsx:52-65 | Deleting one's own account or the last account is refused. A confirmed deletion leaves `AccountsWithout` the id: exactly the accounts with other ids. |
| Users.AccountsWithoutKeepsOrder | components/UserManagement.tsx:62 | Removing accounts from two halves and joining them is removing from the whole, so survivors keep their order. |
| Users.AccountsWithoutOne | components/UserManagement.tsx:62 | A single account is dropped exactly when it carries the id. |
| Users.DeleteUserNeverEmpties | components/UserManagement.tsx:53-62 | When an account with the signed-in user's id exists, an account with that id survives every accepted deletion, so the list never becomes empty. This holds even if the signed-in record is stale in its other fields. |
| Users.SaveEdit | components/UserManagement.tsx:75-101 | An edit needs a selected account and three filled fields, and is refused when the username clashes ignoring case with another account. Otherwise it changes only that account's name, username, PIN and role, keeping its id and position. |
| Users.SaveEditKeepsUsernamesUnique | components/UserManagement.tsx:79-83 | With distinct ids, an accepted edit keeps usernames unique ignoring case. |
| Login.Authenticate | components/Login.tsx:17-26 | Sign-in succeeds with the first account whose username matches ignoring case and whose PIN matches exactly. It fails with the fixed message exactly when no account matches. |
| Login.SignInIsUnambiguous | components/Login.tsx:19 | While usernames are unique, any matching account is the one signed in. |
| Text.LowerChar | components/Login.tsx:19 | Lower-casing maps A-Z to a-z, leaves other ASCII alone and never yields an upper-case ASCII letter. |
| Text.LowerIdempotent | components/UserManagement.tsx:31 | Lower-casing twice is lower-casing once. |
| Text.SameIgnoringCaseIsEquivalence | components/UserManagement.tsx:31 | Username comparison ignoring case is reflexive, symmetric and transitive, and relates only strings of equal length. |
| Text.Trim | components/ImportTools.tsx:41 | Trimming yields the middle part of the text between leading and trailing white space; it is empty exactly when the text is all white space. |
| Text.StripQuotes | components/ImportTools.tsx:47 | One leading double quote is removed if present, then one trailing one; a column with neither is unchanged, and a one-sided quote loses only that quote. |
| Text.StripQuotesUndoesQuoting | components/ImportTools.tsx:47 | Wrapping any text in double quotes and stripping gives the text back. |
| Text.Split | components/ImportTools.tsx:36 | Splitting yields at least one piece and no piece contains the separator. |
| Text.SplitCount | components/ImportTools.tsx:47 | Splitting yields one more piece than the separator occurs, so quoted commas still split. |
| Text.JoinSplit | components/ImportTools.tsx:36 | Joining the pieces with the separator gives back the text. |
| Text.SplitJoin | components/ImportTools.tsx:36 | Splitting a join of separator-free pieces gives back the pieces. |
| Text.SplitAtFirst | components/ImportTools.tsx:36-40 | Text up to the first separator is the first piece, and the rest splits on its own. |
| CsvImport.Columns | components/ImportTools.tsx:47 | A row has one column per comma plus one, each unquoted and trimmed. |
| CsvImport.RowProduct | components/ImportTools.tsx:59-72 | An imported product has the pending category id. Its name and category take their columns when filled, else "Produit Inconnu" and "Autre", so neither is ever empty. Price, purchase price and quantity take their parsed column when it is a non-zero number, else 0. The threshold does the same with default 5, so it is never 0. The optional fields are present exactly when their columns are filled. |
| CsvImport.ParseLine | components/ImportTools.tsx:41-72 | A line yields a product exactly when it is non-blank after trimming and has at least three columns, and that product is built from its columns. |
| CsvImport.ParseFromCount | components/ImportTools.tsx:40-75 | The import yields exactly as many products as there are accepted lines. |
| CsvImport.ParseFromSound | components/ImportTools.tsx:40-75 | Every imported product comes from one of the scanned lines. |
| CsvImport.ParseFromComplete | components/ImportTools.tsx:40-75 | Every accepted line contributes its product. |
| CsvImport.AcceptedLines | components/ImportTools.tsx:40-56 | The accepted line positions are listed in increasing order, one per accepted line and nothing else. |
| CsvImport.ParseFromInOrder | components/ImportTools.tsx:40-75 | The m-th imported product is the one the m-th accepted line describes. |
| CsvImport.ParseCsvYield | components/ImportTools.tsx:35-77 | The importer reads the lines after the header. It yields one product per accepted line, in line order: every product comes from an accepted line and every accepted line contributes its product. |
| CsvImport.ParseFromOnlyReadsTail | components/ImportTools.tsx:40 | Lines before the scan start do not affect the result. |
| CsvImport.HeaderIgnored | components/ImportTools.tsx:39-40 | Changing the header line never changes the imported products. |
| Grouping.AddTo | components/Reports.tsx:46-50 | Tallying one more record creates its group the first time (named by it) or adds to the existing group; keys stay distinct and other groups are untouched. |
| Grouping.TallyCovers | components/Reports.tsx:43-52 | Every key that occurs among the records has a group. |
| Grouping.TallyOnlyOccurring | components/Reports.tsx:43-52 | Every group's key occurs among the records. |
| Grouping.TallySums | components/Reports.tsx:49-50 | A group's count and total are the sums over exactly the records with its key. |
| Grouping.TallyNames | components/Reports.tsx:46-47 | A group is named after the first record with its key. |
| Grouping.TallyOrder | components/Reports.tsx:53 | Groups appear in the order their keys first occur. |
| Grouping.TallyCountTotal | components/Dashboard.tsx:53 | The groups' counts add up to the sum over all records. |
| Grouping.Insert | components/Reports.tsx:54 | Inserting into a ranking keeps it non-increasing and holds the same elements plus the new one. |
| Grouping.SortDescending | components/Reports.tsx:54 | Sorting yields a non-increasing permutation of the groups. |
| Grouping.Top | components/Reports.tsx:53-55 | A top-n ranking has min(n, count) groups drawn from the input, in non-increasing order, and every group left out ranks no higher than any kept. |
| Reports.ProcessSaleAddsItsTotal | components/Reports.tsx:16 | A recorded sale raises total sales by exactly its total. |
| Reports.CogsAppend | components/Reports.tsx:22-31 | Cost of goods adds up over sales. |
| Reports.DeletedProductsCostNothing | components/Reports.tsx:26-28 | Items whose products were deleted cost nothing: a missing product's purchase price counts as 0. |
| Reports.CogsNonNegative | components/Reports.tsx:22-31 | With non-negative purchase prices and quantities, cost of goods is non-negative. |
| Reports.ItemsCostNonNegative | components/Reports.tsx:24-30 | With non-negative purchase prices and quantities, a sale's cost is non-negative. |
| Reports.ItemsCostIgnoresStock | components/Reports.tsx:26-29 | A sale's cost does not depend on stock levels. |
| Reports.CogsIgnoresStock | components/Reports.tsx:22-31 | Cost of goods does not depend on stock levels. |
| Reports.ProcessSaleAddsItsCost | components/Reports.tsx:22-31 | A recorded sale raises cost of goods by exactly its items' cost, even though it also lowers stock. |
| Reports.SummarizeAddsSale | components/Reports.tsx:16-34 | One more sale raises gross and net profit by its total less its items' cost at current purchase prices. |
| Reports.ExpenseLowersNetProfit | components/Reports.tsx:17-34 | One more expense lowers net profit by its amount and leaves gross profit alone; a non-negative expense never raises net profit. |
| Reports.FreeGoodsAreAllProfit | components/Reports.tsx:33 | A sale of products no longer in the catalogue raises gross profit by its whole total. |
| Reports.PotentialProfitIsMargin | components/Reports.tsx:36-38 | Potential stock profit is the sum over products of the per-unit margin times quantity. |
| Reports.TakeStockLowersItemsInStock | components/Reports.tsx:40 | Taking a sale's stock lowers the total units on the shelves by what each product's first cart line takes from it, whatever the cart holds. |
| Reports.CartMovesItsUnits | App.tsx:400-406 | With distinct catalogue ids, one line per product and every line's product in the catalogue, the stock a sale moves adds up to the units in its lines. |
| Reports.TakeStockLowersByUnitsSold | components/Reports.tsx:40 | Under the same conditions, taking the stock lowers the units on the shelves by exactly the units in the cart. |
| Reports.ProcessSaleLowersItemsInStock | components/Reports.tsx:40 | Under the same conditions, recording a sale lowers the "items in stock" figure by exactly the units sold. |
| Reports.ProductSales | components/Reports.tsx:43-52 | Sold products are tallied once per id. Quantities and revenue are summed over exactly that id's items, and the name comes from its first item. |
| Reports.TopProducts | components/Reports.tsx:53-55 | Top products are five, or every product sold when fewer were, drawn from the product tally without repetition, by quantity non-increasing; none left out sold more than one shown. |
| Reports.ClientSales | components/Reports.tsx:58-67 | Only sales naming a client count. Each client appears once, with visits equal to its number of sales and total equal to the sum of their totals, named as in its first sale. |
| Reports.TopClients | components/Reports.tsx:68-70 | Top clients are five, or every client when there are fewer, drawn from the client tally without repetition, by total non-increasing; none left out spent more than one shown. |
| Dashboard.LowStockCount | components/Dashboard.tsx:32-40 | The running counter equals the number of products the low-stock filter keeps. It is at most the number of products, equals it exactly when all are at or below threshold, and is 0 exactly when none is. |
| Dashboard.SaleNeverClearsLowStock | components/Dashboard.tsx:40 | A sale never takes a low-stock product off the low-stock list. |
| Dashboard.SaleLowersStockValue | components/Dashboard.tsx:39 | With non-negative prices and quantities sold, a sale never raises any product's shelf value. |
| Dashboard.CategoryOf | components/Dashboard.tsx:52 | A product's category is its category name when that is filled and "Autre" when it is empty; it is never empty. |
| Dashboard.CategoryCounts | components/Dashboard.tsx:52-53 | Every product is counted once under its category, every category shown holds some product, and the counts sum to the number of products. |
| Dashboard.CategoryDistribution | components/Dashboard.tsx:68-72 | The category chart shows five categories, or every category when there are fewer, drawn from the tally without repetition, by count non-increasing; none left out has more products than one shown. |
| Dashboard.CashFlowIsNetProfitPlusCogs | components/Dashboard.tsx:96-97 | Cash flow (sales minus expenses) is net profit plus cost of goods. |

## Left out

- Rendering, modals, the sidebar and the role-gated choice of views (App.tsx:552-558): user interface.
- Persistence: `localStorage` effects, JSON backup export and import, and the CSV download and file-upload plumbing. These are I/O; the importer is modelled from the text it receives.
- The audit log (`logAction`, `onLog`) and its message text: a side channel with no effect on the data.
- `Date.now()`, `Math.random()` and `new Date()` ids and dates become parameters (`Ledger.Stamp`, the importer's id function). Fresh ids are therefore not guaranteed: `Ledger.CreateThenDeleteRestores` assumes the new sale's id is unused.
- Camera barcode scanning, `services/geminiService.ts` (network), the expiry counts and the weekly sales chart (wall-clock dates), and the category percentages (floating point).
- `Dashboard.Stats`: only the product count, stock value, low-stock count and sales total are computed; the expired and expiring-soon counts need the clock.
- Number parsing: `parseFloat` and `parseInt` are an abstract `string -> Option<int>`, and all money is whole FCFA, so fractional prices and JavaScript number rounding are not modelled.
- Text.LowerChar: only ASCII and Latin-1 letters are lower-cased, so the rest of Unicode's case mapping in `toLowerCase` is not modelled.
- Text.Trim: the white-space set is the common JavaScript one (ASCII white space, no-break space, BOM, line and paragraph separators, the Unicode space separators).
- The unused quoted-column regex at components/ImportTools.tsx:45: its result is never read.
- Grouping.TallyOrder: groups are ordered by first occurrence. `Object.values` lists integer-like keys first in numeric order, and that reordering is not modelled; it only affects ties in the rankings.
- Grouping.SortDescending: the ranking is proved ordered and a permutation, but not stable; `Array.prototype.sort` is stable, so tied groups may be ordered differently.
- Direct product edits that overwrite stock (App.tsx:346, 358) belong to the product form and are not an operation of the model; the ledger lemmas hold for any catalogue.
- The thin list screens (clients, expenses, settings, product list, audit log) and the receipt preview built at components/POS.tsx:113-124: display only.
- `purchasePrice` missing on a product is modelled as 0, which is what `|| 0` makes of it.

## Findings

| source | as written | input that shows it | evidently intended | confidence | as-written member | corrected member |
|---|---|---|---|---|---|---|
| components/POS.tsx:73-82 | `addToCart` appends a 1-unit line for a product not yet in the cart without looking at its stock. The inventory's sell button (components/ProductList.tsx:160, App.tsx:393-395) reaches it through components/POS.tsx:50-53 with no stock check. | A product with quantity 0 sent from the inventory's sell button, then checked out: its stock becomes -1. | Refuse a product with no stock, as the barcode path does at components/POS.tsx:161-166. | not executed | Cart.SoldOutSaleGoesNegative, Cart.AddingSoldOutProductExceedsStock | Cart.AddInStock, Cart.AddInStockKeepsInvariant |

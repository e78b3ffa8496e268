/** The records the shop keeps, as the application's TypeScript interfaces
    declare them (types.ts) or, for the payment part of a sale, as App.tsx
    builds them. Money is whole francs (FCFA), so every amount is an `int`;
    stock is an `int` as well because nothing in the sale path keeps it
    non-negative. */
module Types {
  import opened Collections

  /** A catalogue entry. `purchasePrice` is optional in the source and is
      only ever read with 0 standing for a missing one, so a missing price is 0
      here. Text fields that are optional are `Option<string>`. */
  datatype Product = Product(
    id: string,
    name: string,
    categoryId: string,
    categoryName: string,
    price: int,
    purchasePrice: int,
    quantity: int,
    minThreshold: int,
    expirationDate: Option<string>,
    size: Option<string>,
    barcode: Option<string>,
    image: Option<string>)

  /** One cart or sale line. `price` is the product's price when the line
      was created and is never re-read from the catalogue. */
  datatype SaleItem = SaleItem(productId: string, productName: string, quantity: int, price: int)

  /** One money movement recorded against a sale. */
  datatype SalePayment = SalePayment(id: string, amount: int, payMethod: string, date: string)

  datatype SaleStatus = Paid | Partial | Unpaid

  datatype Client = Client(id: string, name: string)

  /** A sale. `paymentMethod` is the legacy single payment method, the empty string
      standing for an absent one. A sale loaded from an old snapshot has an
      empty `payments` list, and its `balance` and `status` are then
      meaningless until the load migration overwrites them. */
  datatype Sale = Sale(
    id: string,
    items: seq<SaleItem>,
    subTotal: int,
    discount: int,
    totalPrice: int,
    date: string,
    paymentMethod: string,
    payments: seq<SalePayment>,
    balance: int,
    status: SaleStatus,
    clientId: Option<string>,
    clientName: Option<string>)

  datatype Expense = Expense(id: string, description: string, amount: int, date: string)

  datatype Role = Admin | Manager | Cashier

  datatype User = User(id: string, username: string, pin: string, role: Role, name: string)

  /** The ledger's state: the catalogue and the sales history. */
  datatype Store = Store(products: seq<Product>, sales: seq<Sale>)

  /** The amount one payment contributes to a sale's paid total. */
  function Amount(p: SalePayment): int { p.amount }

  /** What a payment list adds up to. */
  function TotalPaid(payments: seq<SalePayment>): int
  {
    SumOf(payments, Amount)
  }

  lemma TotalPaidOne(p: SalePayment)
    ensures TotalPaid([p]) == p.amount
  {
    assert [p][..0] == [];
    assert SumOf([p], Amount) == SumOf([p][..0], Amount) + Amount(p);
  }

  /** The ledger's money invariant: what was paid plus what is owed is the price. */
  predicate Balanced(s: Sale)
  {
    TotalPaid(s.payments) + s.balance == s.totalPrice
  }

  predicate AllBalanced(sales: seq<Sale>)
  {
    forall i :: 0 <= i < |sales| ==> Balanced(sales[i])
  }

  /** The status a sale's balance allows: PAID exactly when nothing is owed,
      UNPAID only when nothing has been paid either. */
  predicate StatusAgrees(s: Sale)
  {
    && (s.status == Paid <==> s.balance <= 0)
    && (s.status == Unpaid ==> TotalPaid(s.payments) == 0)
  }
}

/** The three persisted records and the sale status values.  Dates are
    instants (whole seconds since 1970-01-01 00:00:00 UTC); money is exact
    (`real`) where the program uses float64. */
module Models {

  const StatusPaid: string := "Pagado"
  const StatusPending: string := "Pendiente"

  datatype Product = Product(id: int, date: int, name: string, quantity: int, price: real)

  datatype Sale = Sale(
    id: int,
    date: int,
    client: string,
    productId: int,
    quantity: int,
    price: real,
    total: real,
    status: string)

  datatype CashDelivery = CashDelivery(id: int, date: int, name: string, description: string, amount: real)

  /** What an edit prompt read: a blank line, a line that did not parse,
      or a parsed value. */
  datatype FieldInput<+T> = Blank | Invalid | Parsed(value: T)

  /** `float64(quantity) * price`, exact. */
  function Amount(quantity: int, price: real): (total: real)
    ensures quantity == 0 || price == 0.0 ==> total == 0.0
    ensures quantity >= 0 && price >= 0.0 ==> total >= 0.0
    ensures quantity == 1 ==> total == price
  {
    quantity as real * price
  }

  /** A sale whose total is its quantity times its unit price and whose
      status is one of the two the program writes. */
  ghost predicate ConsistentSale(s: Sale) {
    s.total == Amount(s.quantity, s.price) && (s.status == StatusPaid || s.status == StatusPending)
  }
}

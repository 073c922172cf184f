/** `RegisterSale`, `ShowSales`, `EditSale` and `DeleteSale`.  Console
    input reaches the model as parse outcomes: `Option` for the
    registration prompts, `FieldInput` for the edit prompts; the repository
    is a lookup function. */
module Sales {
  import opened Wrappers
  import opened Models
  import opened Text
  import Reports

  datatype RegisterError = InvalidProductId | ProductNotFound | InvalidQuantity

  /** `RegisterSale`: builds the sale to insert, or says why the operation
      was abandoned.  The unit price is a snapshot of the product's price. */
  function RegisterSale(dateIn: Option<int>, now: int, client: string, productIdIn: Option<int>,
                        lookup: int -> Option<Product>, quantityIn: Option<int>, statusIn: Option<int>)
    : (r: Result<Sale, RegisterError>)
    ensures r.Failure? <==> productIdIn.None? || lookup(productIdIn.value).None? || quantityIn.None?
    ensures productIdIn.None? ==> r == Failure(InvalidProductId)
    ensures productIdIn.Some? && lookup(productIdIn.value).None? ==> r == Failure(ProductNotFound)
    ensures productIdIn.Some? && lookup(productIdIn.value).Some? && quantityIn.None? ==> r == Failure(InvalidQuantity)
    ensures r.Success? ==>
              var s := r.value;
              var product := lookup(productIdIn.value).value;
              && s.productId == productIdIn.value
              && s.quantity == quantityIn.value
              && s.price == product.price
              && s.total == Amount(s.quantity, product.price)
              && s.client == TrimSpace(client)
              && s.date == (if dateIn.Some? then dateIn.value else now)
              && (s.status == StatusPaid <==> statusIn == Some(1))
              && ConsistentSale(s)
  {
    var date := if dateIn.Some? then dateIn.value else now;
    var clientName := TrimSpace(client);
    if productIdIn.None? then Failure(InvalidProductId)
    else
      var productId := productIdIn.value;
      match lookup(productId)
      case None => Failure(ProductNotFound)
      case Some(product) =>
        if quantityIn.None? then Failure(InvalidQuantity)
        else
          var quantity := quantityIn.value;
          var total := Amount(quantity, product.price);
          var statusChoice := if statusIn.None? || (statusIn.value != 1 && statusIn.value != 2) then 2
                              else statusIn.value;
          var status := if statusChoice == 1 then StatusPaid else StatusPending;
          Success(Sale(0, date, clientName, productId, quantity, product.price, total, status))
  }

  /** The detail view of `ShowSales`: when the sale list could be read, an
      entered ID that parses and is found shows the sale with its product's
      name, "N/A" when the product is gone. */
  function ShowSaleDetails(listing: Option<seq<Sale>>, idIn: FieldInput<int>, findSale: int -> Option<Sale>,
                           lookup: int -> Option<Product>): (shown: Option<(Sale, string)>)
    ensures shown.Some? <==> listing.Some? && idIn.Parsed? && findSale(idIn.value).Some?
    ensures shown.Some? ==>
              var sale := findSale(idIn.value).value;
              && shown.value.0 == sale
              && (lookup(sale.productId).None? ==> shown.value.1 == Reports.NotAvailable)
              && (lookup(sale.productId).Some? ==> shown.value.1 == lookup(sale.productId).value.name)
  {
    if listing.None? then None
    else match idIn
    case Parsed(id) =>
      (match findSale(id)
       case Some(sale) => Some((sale, Reports.ResolveProductName(lookup, sale.productId)))
       case None => None)
    case _ => None
  }

  /** What the edit prompts of `EditSale` read; `client` is the raw line. */
  datatype SaleEdit = SaleEdit(
    date: FieldInput<int>,
    client: string,
    quantity: FieldInput<int>,
    price: FieldInput<real>,
    status: FieldInput<int>)

  /** The client after the edit prompt: the trimmed line unless it is blank. */
  function EditedClient(current: string, line: string): string {
    if TrimSpace(line) != "" then TrimSpace(line) else current
  }

  /** The status after the edit prompt: only choices 1 and 2 change it. */
  function EditedStatus(current: string, choice: FieldInput<int>): string {
    match choice
    case Parsed(1) => StatusPaid
    case Parsed(2) => StatusPending
    case _ => current
  }

  /** The sale after one pass of `EditSale`'s prompts: each field is
      replaced only by a non-blank input that parses, the status only by
      choice 1 or 2, and the total is always recomputed. */
  function EditedSale(s: Sale, e: SaleEdit): (r: Sale)
    ensures r.id == s.id && r.productId == s.productId
    ensures r.total == Amount(r.quantity, r.price)
  {
    var date := if e.date.Parsed? then e.date.value else s.date;
    var client := EditedClient(s.client, e.client);
    var quantity := if e.quantity.Parsed? then e.quantity.value else s.quantity;
    var price := if e.price.Parsed? then e.price.value else s.price;
    var status := EditedStatus(s.status, e.status);
    s.(date := date, client := client, quantity := quantity, price := price,
       total := Amount(quantity, price), status := status)
  }

  /** The fetched `*models.Sale` that `EditSale` updates field by field. */
  class SaleRecord {
    var id: int
    var date: int
    var client: string
    var productId: int
    var quantity: int
    var price: real
    var total: real
    var status: string

    constructor (s: Sale)
      ensures Value() == s
    {
      id, date, client, productId := s.id, s.date, s.client, s.productId;
      quantity, price, total, status := s.quantity, s.price, s.total, s.status;
    }

    function Value(): Sale
      reads this
    {
      Sale(id, date, client, productId, quantity, price, total, status)
    }

    method ApplyEdit(e: SaleEdit)
      modifies this
      ensures Value() == EditedSale(old(Value()), e)
    {
      ghost var after := EditedSale(Value(), e);
      match e.date {
        case Parsed(d) => date := d;
        case _ =>
      }
      assert date == after.date;
      var trimmed := TrimSpace(e.client);
      if trimmed != "" {
        client := trimmed;
      }
      assert client == after.client;
      match e.quantity {
        case Parsed(q) => quantity := q;
        case _ =>
      }
      assert quantity == after.quantity;
      match e.price {
        case Parsed(p) => price := p;
        case _ =>
      }
      assert price == after.price;
      total := Amount(quantity, price);
      match e.status {
        case Parsed(choice) =>
          if choice == 1 || choice == 2 {
            if choice == 1 {
              status := StatusPaid;
            } else {
              status := StatusPending;
            }
          }
        case _ =>
      }
      assert status == after.status;
    }
  }

  /** `EditSale`: the sale written back, or none when the ID does not parse
      or no sale has it. */
  method EditSale(idIn: Option<int>, findSale: int -> Option<Sale>, e: SaleEdit)
    returns (written: Option<Sale>)
    ensures written.Some? <==> idIn.Some? && findSale(idIn.value).Some?
    ensures written.Some? ==> written.value == EditedSale(findSale(idIn.value).value, e)
  {
    if idIn.None? {
      return None;
    }
    var found := findSale(idIn.value);
    if found.None? {
      return None;
    }
    var sale := new SaleRecord(found.value);
    sale.ApplyEdit(e);
    written := Some(sale.Value());
  }

  /** Each field of an edited sale: replaced by a non-blank input that
      parses, kept otherwise; the status replaced only by choice 1 or 2. */
  lemma EditFieldRules(s: Sale, e: SaleEdit)
    ensures var r := EditedSale(s, e);
            && (e.date.Parsed? ==> r.date == e.date.value)
            && (!e.date.Parsed? ==> r.date == s.date)
            && (TrimSpace(e.client) != "" ==> r.client == TrimSpace(e.client))
            && (TrimSpace(e.client) == "" ==> r.client == s.client)
            && (e.quantity.Parsed? ==> r.quantity == e.quantity.value)
            && (!e.quantity.Parsed? ==> r.quantity == s.quantity)
            && (e.price.Parsed? ==> r.price == e.price.value)
            && (!e.price.Parsed? ==> r.price == s.price)
            && (e.status == Parsed(1) ==> r.status == StatusPaid)
            && (e.status == Parsed(2) ==> r.status == StatusPending)
            && (e.status != Parsed(1) && e.status != Parsed(2) ==> r.status == s.status)
  {
  }

  /** A consistent sale stays consistent through any edit. */
  lemma EditKeepsConsistent(s: Sale, e: SaleEdit)
    requires ConsistentSale(s)
    ensures ConsistentSale(EditedSale(s, e))
  {
  }

  ghost predicate NoInput(e: SaleEdit) {
    !e.date.Parsed? && TrimSpace(e.client) == "" && !e.quantity.Parsed? && !e.price.Parsed?
    && e.status != Parsed(1) && e.status != Parsed(2)
  }

  /** Blank answers to every prompt change nothing but the recomputed
      total, which a consistent sale already has. */
  lemma BlankEdit(s: Sale, e: SaleEdit)
    requires NoInput(e)
    ensures EditedSale(s, e) == s.(total := Amount(s.quantity, s.price))
    ensures ConsistentSale(s) ==> EditedSale(s, e) == s
  {
  }

  /** Giving the same answers twice has the effect of giving them once. */
  lemma EditIdempotent(s: Sale, e: SaleEdit)
    ensures EditedSale(EditedSale(s, e), e) == EditedSale(s, e)
  {
    TrimSpaceIdempotent(e.client);
  }

  /** A sale after a series of edits. */
  function EditedSaleAll(s: Sale, es: seq<SaleEdit>): Sale
    decreases |es|
  {
    if es == [] then s else EditedSaleAll(EditedSale(s, es[0]), es[1..])
  }

  /** No series of edits changes a sale's ID or product, and after at least
      one edit the total is the quantity times the price. */
  lemma {:induction false} EditsKeepIdentity(s: Sale, es: seq<SaleEdit>)
    ensures EditedSaleAll(s, es).id == s.id
    ensures EditedSaleAll(s, es).productId == s.productId
    ensures es != [] ==> EditedSaleAll(s, es).total == Amount(EditedSaleAll(s, es).quantity, EditedSaleAll(s, es).price)
    decreases |es|
  {
    if es != [] {
      EditsKeepIdentity(EditedSale(s, es[0]), es[1..]);
    }
  }

  /** Consistency survives any series of edits. */
  lemma {:induction false} EditsKeepConsistent(s: Sale, es: seq<SaleEdit>)
    requires ConsistentSale(s)
    ensures ConsistentSale(EditedSaleAll(s, es))
    decreases |es|
  {
    if es != [] {
      EditKeepsConsistent(s, es[0]);
      EditsKeepConsistent(EditedSale(s, es[0]), es[1..]);
    }
  }

  /** A registered sale, edited any number of times, still has total =
      quantity x price and a status the program writes. */
  lemma RegisteredSaleStaysConsistent(dateIn: Option<int>, now: int, client: string, productIdIn: Option<int>,
                                      lookup: int -> Option<Product>, quantityIn: Option<int>,
                                      statusIn: Option<int>, es: seq<SaleEdit>)
    ensures var r := RegisterSale(dateIn, now, client, productIdIn, lookup, quantityIn, statusIn);
            r.Success? ==> ConsistentSale(EditedSaleAll(r.value, es))
  {
    var r := RegisterSale(dateIn, now, client, productIdIn, lookup, quantityIn, statusIn);
    if r.Success? {
      EditsKeepConsistent(r.value, es);
    }
  }

  /** `DeleteSale`: the ID handed to the repository for deletion, when the
      sale list could be read, the ID parses and the answer confirms. */
  function DeleteSale(listing: Option<seq<Sale>>, idIn: Option<int>, confirmation: string): (target: Option<int>)
    ensures target.Some? <==> listing.Some? && idIn.Some? && Confirmed(confirmation)
    ensures target.Some? ==> target == idIn
  {
    if listing.None? || idIn.None? then None
    else if !Confirmed(confirmation) then None
    else idIn
  }
}

/** `RegisterProduct`, `EditProduct` and `DeleteProduct`.  Console input
    reaches the model as parse outcomes; the repository is a lookup
    function. */
module Products {
  import opened Wrappers
  import opened Models
  import opened Text

  /** `RegisterProduct`: the product to insert.  Bad input never aborts:
      an unparseable date becomes `now`, quantity 0 and price 0.0.  The ID
      is left 0 for the repository to assign. */
  function RegisterProduct(dateIn: Option<int>, now: int, name: string,
                           quantityIn: Option<int>, priceIn: Option<real>): (p: Product)
    ensures p.id == 0 && p.name == TrimSpace(name)
    ensures dateIn.Some? ==> p.date == dateIn.value
    ensures dateIn.None? ==> p.date == now
    ensures quantityIn.Some? ==> p.quantity == quantityIn.value
    ensures quantityIn.None? ==> p.quantity == 0
    ensures priceIn.Some? ==> p.price == priceIn.value
    ensures priceIn.None? ==> p.price == 0.0
  {
    var date := if dateIn.Some? then dateIn.value else now;
    var productName := TrimSpace(name);
    var quantity := if quantityIn.Some? then quantityIn.value else 0;
    var price := if priceIn.Some? then priceIn.value else 0.0;
    Product(0, date, productName, quantity, price)
  }

  /** What the edit prompts of `EditProduct` read. */
  datatype ProductEdit = ProductEdit(date: FieldInput<int>, quantity: FieldInput<int>, price: FieldInput<real>)

  /** The product after one pass of `EditProduct`'s prompts: the name and
      the ID are never touched; date, quantity and price are replaced only
      by a non-blank input that parses. */
  function EditedProduct(p: Product, e: ProductEdit): (r: Product)
    ensures r.id == p.id && r.name == p.name
    ensures e.date.Parsed? ==> r.date == e.date.value
    ensures !e.date.Parsed? ==> r.date == p.date
    ensures e.quantity.Parsed? ==> r.quantity == e.quantity.value
    ensures !e.quantity.Parsed? ==> r.quantity == p.quantity
    ensures e.price.Parsed? ==> r.price == e.price.value
    ensures !e.price.Parsed? ==> r.price == p.price
  {
    var date := if e.date.Parsed? then e.date.value else p.date;
    var quantity := if e.quantity.Parsed? then e.quantity.value else p.quantity;
    var price := if e.price.Parsed? then e.price.value else p.price;
    p.(date := date, quantity := quantity, price := price)
  }

  /** The fetched `*models.Product` that `EditProduct` updates field by field. */
  class ProductRecord {
    var id: int
    var date: int
    var name: string
    var quantity: int
    var price: real

    constructor (p: Product)
      ensures Value() == p
    {
      id, date, name, quantity, price := p.id, p.date, p.name, p.quantity, p.price;
    }

    function Value(): Product
      reads this
    {
      Product(id, date, name, quantity, price)
    }

    method ApplyEdit(e: ProductEdit)
      modifies this
      ensures Value() == EditedProduct(old(Value()), e)
    {
      match e.date {
        case Parsed(d) => date := d;
        case _ =>
      }
      match e.quantity {
        case Parsed(q) => quantity := q;
        case _ =>
      }
      match e.price {
        case Parsed(p) => price := p;
        case _ =>
      }
    }
  }

  /** `EditProduct`: the product written back, or none when the ID does not
      parse or no product has it. */
  method EditProduct(idIn: Option<int>, findProduct: int -> Option<Product>, e: ProductEdit)
    returns (written: Option<Product>)
    ensures written.Some? <==> idIn.Some? && findProduct(idIn.value).Some?
    ensures written.Some? ==> written.value == EditedProduct(findProduct(idIn.value).value, e)
  {
    if idIn.None? {
      return None;
    }
    var found := findProduct(idIn.value);
    if found.None? {
      return None;
    }
    var product := new ProductRecord(found.value);
    product.ApplyEdit(e);
    written := Some(product.Value());
  }

  /** Blank or unparseable answers to every prompt leave the product as it was. */
  lemma BlankProductEdit(p: Product, e: ProductEdit)
    requires !e.date.Parsed? && !e.quantity.Parsed? && !e.price.Parsed?
    ensures EditedProduct(p, e) == p
  {
  }

  /** Answering the prompts the same way twice changes nothing more. */
  lemma ProductEditIdempotent(p: Product, e: ProductEdit)
    ensures EditedProduct(EditedProduct(p, e), e) == EditedProduct(p, e)
  {
  }

  /** A product after a series of edits. */
  function EditedProductAll(p: Product, es: seq<ProductEdit>): Product
    decreases |es|
  {
    if es == [] then p else EditedProductAll(EditedProduct(p, es[0]), es[1..])
  }

  /** The name given at registration, and the ID, survive every series of
      edits; the last answer that parses decides the price. */
  lemma {:induction false} EditsKeepName(p: Product, es: seq<ProductEdit>)
    ensures EditedProductAll(p, es).name == p.name
    ensures EditedProductAll(p, es).id == p.id
    ensures es != [] && es[|es| - 1].price.Parsed? ==> EditedProductAll(p, es).price == es[|es| - 1].price.value
    decreases |es|
  {
    if es != [] {
      EditsKeepName(EditedProduct(p, es[0]), es[1..]);
      if |es| > 1 {
        assert es[1..][|es[1..]| - 1] == es[|es| - 1];
      }
    }
  }

  /** `DeleteProduct`: the ID handed to the repository for deletion, when
      the ID parses and the answer confirms. */
  function DeleteProduct(idIn: Option<int>, confirmation: string): (target: Option<int>)
    ensures target.Some? <==> idIn.Some? && Confirmed(confirmation)
    ensures target.Some? ==> target == idIn
  {
    if idIn.None? then None
    else if !Confirmed(confirmation) then None
    else idIn
  }
}

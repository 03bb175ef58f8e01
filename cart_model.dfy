/** The Cart document: one per user, an ordered list of lines and a cached total. */
module CartModel {
  import opened Common

  datatype Cart = Cart(id: CartId, user: UserId, items: seq<LineItem>, totalAmount: real)

  /** The line schema's `quantity: { min: 1 }`. */
  predicate LinesOk(items: seq<LineItem>) {
    forall i :: 0 <= i < |items| ==> items[i].quantity >= 1
  }

  /** What the cart schema's validators enforce on save. */
  predicate CartSchemaOk(c: Cart) {
    LinesOk(c.items)
  }

  /** `new Cart({ user, items: [], totalAmount: 0 })`. */
  function NewCart(id: CartId, user: UserId): (c: Cart)
    ensures c.id == id && c.user == user && c.items == [] && c.totalAmount == 0.0
    ensures CartSchemaOk(c)
  {
    Cart(id, user, [], 0.0)
  }

  /** A line of quantity 0 can never be saved. */
  lemma ZeroLineRefused(c: Cart, i: nat)
    requires i < |c.items| && c.items[i].quantity == 0
    ensures !CartSchemaOk(c)
  {
  }

  /** Dropping the lines of one book keeps the line schema satisfied. */
  lemma WithoutBookLinesOk(items: seq<LineItem>, book: BookId)
    requires LinesOk(items)
    ensures LinesOk(WithoutBook(items, book))
  {
    var kept := WithoutBook(items, book);
    forall i | 0 <= i < |kept| ensures kept[i].quantity >= 1 {
      assert kept[i] in items;
    }
  }
}

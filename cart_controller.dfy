/** The cart endpoints: add, remove, update and clear, over the document store. */
module CartController {
  import opened Common
  import opened Joi
  import opened BookModel
  import opened CartModel
  import opened UserModel
  import opened CartValidation
  import opened Database
  import opened OrderUtils

  /** The quantity of the line `find` returns for `book`, or 0 when there is none. */
  function LineQuantity(items: seq<LineItem>, book: BookId): (q: int)
    ensures (forall j :: 0 <= j < |items| ==> items[j].book != book) ==> q == 0
    ensures forall i :: 0 <= i < |items| && items[i].book == book && (forall j :: 0 <= j < i ==> items[j].book != book) ==>
              q == items[i].quantity
  {
    match FindLine(items, book)
    case Some(i) => items[i].quantity
    case None => 0
  }

  /**
   * Adding `quantity` copies of `book` at `unitPrice`: the book's line grows,
   * or a new line is appended; either way the line's `price` becomes the
   * unit price times the line's whole quantity.
   */
  function AddLine(items: seq<LineItem>, book: BookId, quantity: int, unitPrice: real): (r: seq<LineItem>)
    ensures |r| == (if FindLine(items, book).Some? then |items| else |items| + 1)
    ensures forall j :: 0 <= j < |items| && items[j].book != book ==> r[j] == items[j]
    ensures FindLine(r, book).Some?
    ensures r[FindLine(r, book).value].quantity == LineQuantity(items, book) + quantity
    ensures r[FindLine(r, book).value].price == unitPrice * r[FindLine(r, book).value].quantity as real
  {
    match FindLine(items, book)
    case Some(i) =>
      var merged := items[i].quantity + quantity;
      var r := items[i := LineItem(book, merged, unitPrice * merged as real)];
      FindLineIs(r, book, i);
      r
    case None =>
      var r := items + [LineItem(book, quantity, unitPrice * quantity as real)];
      FindLineIs(r, book, |items|);
      r
  }

  /** Adding keeps one line per book. */
  lemma AddLineDistinct(items: seq<LineItem>, book: BookId, quantity: int, unitPrice: real)
    requires DistinctBooks(items)
    ensures DistinctBooks(AddLine(items, book, quantity, unitPrice))
  {
  }

  /** The line schema refuses the result exactly when a new line of quantity 0 was appended. */
  lemma AddLineSchema(items: seq<LineItem>, book: BookId, quantity: int, unitPrice: real)
    requires LinesOk(items) && quantity >= 0
    ensures LinesOk(AddLine(items, book, quantity, unitPrice)) <==> FindLine(items, book).Some? || quantity >= 1
  {
    var r := AddLine(items, book, quantity, unitPrice);
    if FindLine(items, book).None? && quantity < 1 {
      assert r[|items|].quantity == 0;
    }
  }

  /** Overwriting one line moves the price total by the difference of the two prices. */
  lemma {:induction false} TotalAfterSet(items: seq<LineItem>, i: nat, line: LineItem)
    requires i < |items|
    ensures CalculateOrderTotal(items[i := line]) == CalculateOrderTotal(items) - items[i].price + line.price
  {
    assert items == items[..i] + ([items[i]] + items[i + 1..]);
    assert items[i := line] == items[..i] + ([line] + items[i + 1..]);
    CalculateOrderTotalAppend(items[..i], [items[i]] + items[i + 1..]);
    CalculateOrderTotalAppend(items[..i], [line] + items[i + 1..]);
    CalculateOrderTotalAppend([items[i]], items[i + 1..]);
    CalculateOrderTotalAppend([line], items[i + 1..]);
  }

  /** The line at `i` takes quantity `quantity` and price `unitPrice` × `quantity`; the others stay. */
  function SetLine(items: seq<LineItem>, i: nat, quantity: int, unitPrice: real): (r: seq<LineItem>)
    requires i < |items|
    ensures |r| == |items| && Books(r) == Books(items)
    ensures forall j :: 0 <= j < |items| && j != i ==> r[j] == items[j]
    ensures r[i].quantity == quantity && r[i].price == unitPrice * quantity as real
  {
    items[i := LineItem(items[i].book, quantity, unitPrice * quantity as real)]
  }

  /** The add-to-cart request passes its three checks: body schema, book found, enough `quantity`. */
  predicate AddAccepted(books: map<BookId, Book>, bookId: BookId, body: Body) {
    && CartBodyValid(body)
    && bookId in books
    && books[bookId].quantity >= RequestedQuantity(body)
  }

  /**
   * `addToCart`. A failed check answers 400 and changes nothing. Otherwise
   * the user's cart (a fresh one when there is none) is recorded on the user
   * and saved before the cart; the cart save fails with 500 when it would
   * hold a line of quantity 0. Book stock is not reserved.
   */
  method AddToCart(db: Db, uid: UserId, bookId: BookId, body: Body) returns (r: Reply<Cart>)
    requires db.Valid() && uid in db.users
    modifies db
    ensures db.Valid()
    ensures db.books == old(db.books) && db.orders == old(db.orders)
    ensures !AddAccepted(old(db.books), bookId, body) ==> r == Fail(400) && unchanged(db)
    ensures AddAccepted(old(db.books), bookId, body) ==>
      var q := RequestedQuantity(body);
      var cart := if uid in old(db.carts) then old(db.carts[uid]) else NewCart(old(db.nextId), uid);
      var items := AddLine(cart.items, bookId, q, old(db.books[bookId].price));
      && db.nextId == (if uid in old(db.carts) then old(db.nextId) else old(db.nextId) + 1)
      && db.users == old(db.users)[uid := old(db.users[uid]).(cart := AppendIfAbsent(old(db.users[uid].cart), cart.id))]
      && (LinesOk(items) ==>
            r == Ok(Cart(cart.id, uid, items, CalculateOrderTotal(items))) && db.carts == old(db.carts)[uid := r.data])
      && (!LinesOk(items) ==> r == Fail(500) && db.carts == old(db.carts))
  {
    if !CartBodyValid(body) {
      return Fail(400);
    }
    var q := RequestedQuantity(body);
    if bookId !in db.books {
      return Fail(400);
    }
    var book := db.books[bookId];
    if book.quantity < q {
      return Fail(400);
    }
    var cart: Cart;
    if uid in db.carts {
      cart := db.carts[uid];
    } else {
      cart := NewCart(db.nextId, uid);
      Grow(db.books, db.carts, db.orders, db.nextId, db.nextId + 1);
      db.nextId := db.nextId + 1;
    }
    var items := AddLine(cart.items, bookId, q, book.price);
    var user := db.users[uid];
    var user' := user.(cart := AppendIfAbsent(user.cart, cart.id));
    UsersOkListUpdate(db.users, uid, user');
    db.users := db.users[uid := user'];
    if !LinesOk(items) {
      return Fail(500);
    }
    AddLineDistinct(cart.items, bookId, q, book.price);
    cart := Cart(cart.id, uid, items, CalculateOrderTotal(items));
    CartsOkUpdate(db.carts, db.nextId, uid, cart);
    db.carts := db.carts[uid := cart];
    r := Ok(cart);
  }

  /**
   * `removeFromCart`: 404 without a cart. Otherwise the quantity of the
   * first line for the book goes back to the book's `quantity` (when the
   * book still exists), every line for the book is dropped and the total
   * is recomputed as the sum of the remaining line prices.
   */
  method RemoveFromCart(db: Db, uid: UserId, bookId: BookId) returns (r: Reply<()>)
    requires db.Valid() && uid in db.users
    modifies db
    ensures db.Valid()
    ensures uid !in old(db.carts) ==> r == Fail(404) && unchanged(db)
    ensures uid in old(db.carts) ==>
      var cart := old(db.carts[uid]);
      var kept := WithoutBook(cart.items, bookId);
      && r == Ok(())
      && (FindLine(cart.items, bookId).None? ==> db.books == old(db.books))
      && (FindLine(cart.items, bookId).Some? ==>
            db.books == Credit(old(db.books), cart.items[FindLine(cart.items, bookId).value]))
      && db.carts == old(db.carts)[uid := cart.(items := kept, totalAmount := CalculateOrderTotal(kept))]
      && db.orders == old(db.orders) && db.users == old(db.users) && db.nextId == old(db.nextId)
  {
    if uid !in db.carts {
      return Fail(404);
    }
    var cart := db.carts[uid];
    var found := FindLine(cart.items, bookId);
    if found.Some? {
      BooksOkFrame(db.books, Credit(db.books, cart.items[found.value]), db.nextId);
      db.books := Credit(db.books, cart.items[found.value]);
    }
    var kept := WithoutBook(cart.items, bookId);
    WithoutBookDistinct(cart.items, bookId);
    WithoutBookLinesOk(cart.items, bookId);
    CartsOkUpdate(db.carts, db.nextId, uid, cart.(items := kept, totalAmount := CalculateOrderTotal(kept)));
    db.carts := db.carts[uid := cart.(items := kept, totalAmount := CalculateOrderTotal(kept))];
    r := Ok(());
  }

  /**
   * `updateCart`, whose `quantity` is not validated: 404 for a missing book,
   * 400 when the book's `quantity` is below the request, 404 without a cart
   * or without a line for the book. The line then takes the new quantity and
   * the price unit × quantity; a quantity below 1 fails the cart save (500).
   */
  method UpdateCart(db: Db, uid: UserId, bookId: BookId, quantity: int) returns (r: Reply<Cart>)
    requires db.Valid() && uid in db.users
    modifies db
    ensures db.Valid()
    ensures db.books == old(db.books) && db.orders == old(db.orders)
    ensures db.users == old(db.users) && db.nextId == old(db.nextId)
    ensures bookId !in old(db.books) ==> r == Fail(404) && unchanged(db)
    ensures bookId in old(db.books) && old(db.books[bookId].quantity) < quantity ==> r == Fail(400) && unchanged(db)
    ensures bookId in old(db.books) && old(db.books[bookId].quantity) >= quantity ==>
      if uid !in old(db.carts) || FindLine(old(db.carts[uid].items), bookId).None? then r == Fail(404) && unchanged(db)
      else
        var cart := old(db.carts[uid]);
        var i := FindLine(cart.items, bookId).value;
        var items := SetLine(cart.items, i, quantity, old(db.books[bookId].price));
        if quantity < 1 then r == Fail(500) && unchanged(db)
        else r == Ok(cart.(items := items, totalAmount := CalculateOrderTotal(items))) && db.carts == old(db.carts)[uid := r.data]
  {
    if bookId !in db.books {
      return Fail(404);
    }
    var book := db.books[bookId];
    if book.quantity < quantity {
      return Fail(400);
    }
    if uid !in db.carts {
      return Fail(404);
    }
    var cart := db.carts[uid];
    var found := FindLine(cart.items, bookId);
    if found.None? {
      return Fail(404);
    }
    assert CartOk(uid, cart, db.nextId);
    var i := found.value;
    var difference := quantity - cart.items[i].quantity;
    if difference > 0 && book.quantity < difference {
      // Unreachable: the stored line holds at least 1, so the difference never exceeds the request.
      assert false;
    }
    var items := SetLine(cart.items, i, quantity, book.price);
    assert items[i].quantity == quantity;
    assert LinesOk(cart.items);
    assert quantity >= 1 ==> LinesOk(items);
    if !LinesOk(items) {
      return Fail(500);
    }
    var updated := cart.(items := items, totalAmount := CalculateOrderTotal(items));
    CartsOkUpdate(db.carts, db.nextId, uid, updated);
    db.carts := db.carts[uid := updated];
    r := Ok(updated);
  }

  /**
   * `clearCart`: 404 without a cart; otherwise each line's quantity goes
   * back to its book's `quantity` (missing books skipped), and the cart is
   * emptied with total 0.
   */
  method ClearCart(db: Db, uid: UserId) returns (r: Reply<()>)
    requires db.Valid() && uid in db.users
    modifies db
    ensures db.Valid()
    ensures uid !in old(db.carts) ==> r == Fail(404) && unchanged(db)
    ensures uid in old(db.carts) ==>
      && r == Ok(())
      && db.books == Credited(old(db.books), old(db.carts[uid].items))
      && db.carts == old(db.carts)[uid := old(db.carts[uid]).(items := [], totalAmount := 0.0)]
      && db.orders == old(db.orders) && db.users == old(db.users) && db.nextId == old(db.nextId)
  {
    if uid !in db.carts {
      return Fail(404);
    }
    var cart := db.carts[uid];
    // The handler's own loop over the lines is the loop of `restoreBookStock`.
    RestoreBookStock(db, cart.items);
    forall k | k in db.books ensures db.books[k].id == old(db.books)[k].id {
      CreditedBook(old(db.books), cart.items, k);
    }
    BooksOkFrame(old(db.books), db.books, db.nextId);
    CartsOkUpdate(db.carts, db.nextId, uid, cart.(items := [], totalAmount := 0.0));
    db.carts := db.carts[uid := cart.(items := [], totalAmount := 0.0)];
    r := Ok(());
  }

  /** The increase check in `updateCart` can never fire once the first stock check has passed. */
  lemma IncreaseCheckNeverRejects(stock: int, requested: int, current: int)
    requires stock >= requested && current >= 1
    ensures !(requested - current > 0 && stock < requested - current)
  {
  }
}

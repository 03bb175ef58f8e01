/** The order endpoints: checkout from the cart, cancellation, and the two status updates. */
module OrderController {
  import opened Common
  import opened Text
  import opened Joi
  import opened BookModel
  import opened CartModel
  import opened UserModel
  import opened OrderInterface
  import opened OrderValidation
  import opened Database
  import opened OrderUtils

  /** One element of the request's `items`: a book id and the quantity wanted. */
  datatype RequestedItem = RequestedItem(book: BookId, quantity: int)

  /** The cart holds a line for the request's book, and that line's quantity covers it. */
  predicate Coverable(cartItems: seq<LineItem>, req: RequestedItem) {
    FindLine(cartItems, req.book).Some? && cartItems[FindLine(cartItems, req.book).value].quantity >= req.quantity
  }

  /**
   * The map callback for one request: no line, or too few copies in it,
   * gives `null`; otherwise an order line with the requested quantity and
   * the cart line's stored `price`.
   */
  function OrderLine(cartItems: seq<LineItem>, req: RequestedItem): (r: Option<LineItem>)
    ensures r.Some? <==> Coverable(cartItems, req)
  {
    match FindLine(cartItems, req.book)
    case None => None
    case Some(i) =>
      if cartItems[i].quantity < req.quantity then None
      else Some(LineItem(cartItems[i].book, req.quantity, cartItems[i].price))
  }

  /** `.filter(Boolean)`: the present values, in order. */
  function Present(xs: seq<Option<LineItem>>): (r: seq<LineItem>)
    ensures |r| <= |xs|
    ensures |r| == |xs| <==> forall i :: 0 <= i < |xs| ==> xs[i].Some?
    ensures |r| == |xs| ==> forall i :: 0 <= i < |xs| ==> r[i] == xs[i].value
  {
    if xs == [] then []
    else if xs[0].Some? then [xs[0].value] + Present(xs[1..])
    else Present(xs[1..])
  }

  /**
   * The order lines of a checkout, or None when the request is refused. The
   * request is all-or-nothing: it is accepted exactly when every requested
   * book has a cart line holding enough copies, and then the k-th order line
   * carries the k-th request's book and quantity with its cart line's price.
   */
  function ValidOrderedItems(cartItems: seq<LineItem>, reqs: seq<RequestedItem>): (r: Option<seq<LineItem>>)
    ensures r.Some? <==> forall j :: 0 <= j < |reqs| ==> Coverable(cartItems, reqs[j])
    ensures r.Some? ==> |r.value| == |reqs| && forall j :: 0 <= j < |reqs| ==>
      r.value[j] == LineItem(reqs[j].book, reqs[j].quantity, cartItems[FindLine(cartItems, reqs[j].book).value].price)
  {
    var lines := seq(|reqs|, j requires 0 <= j < |reqs| => OrderLine(cartItems, reqs[j]));
    assert forall j :: 0 <= j < |reqs| ==> (lines[j].Some? <==> Coverable(cartItems, reqs[j]));
    var valid := Present(lines);
    if |valid| != |reqs| then None else Some(valid)
  }

  /**
   * `cart.items.find(item => item.book._id ... === book)` on the populated
   * cart throws when it reaches a line whose book is gone (populated as
   * `null`) before it reaches a line for `book`.
   */
  predicate FindThrows(items: seq<LineItem>, books: map<BookId, Book>, book: BookId) {
    exists i | 0 <= i < |items| :: items[i].book !in books && forall j | 0 <= j < i :: items[j].book != book
  }

  /** Some request's lookup throws while the order lines are built. */
  predicate MatchThrows(items: seq<LineItem>, books: map<BookId, Book>, reqs: seq<RequestedItem>) {
    exists j | 0 <= j < |reqs| :: FindThrows(items, books, reqs[j].book)
  }

  /** The shrinking pass reads every line's book id as soon as there is any request. */
  predicate ShrinkThrows(items: seq<LineItem>, books: map<BookId, Book>, reqs: seq<RequestedItem>) {
    |reqs| > 0 && exists i | 0 <= i < |items| :: items[i].book !in books
  }

  /** Every order line of an accepted, non-throwing request names a book that exists. */
  lemma AcceptedLinesExist(items: seq<LineItem>, books: map<BookId, Book>, reqs: seq<RequestedItem>)
    requires !MatchThrows(items, books, reqs)
    requires ValidOrderedItems(items, reqs).Some?
    ensures forall k :: 0 <= k < |reqs| ==> ValidOrderedItems(items, reqs).value[k].book in books
  {
    forall k | 0 <= k < |reqs| ensures ValidOrderedItems(items, reqs).value[k].book in books {
      assert Coverable(items, reqs[k]);
      var i := FindLine(items, reqs[k].book).value;
      assert !FindThrows(items, books, reqs[k].book);
    }
  }

  /** The stock loop of a checkout never reports a missing book: every order line's book was found in the cart. */
  lemma CheckoutStockNever404(items: seq<LineItem>, books: map<BookId, Book>, reqs: seq<RequestedItem>, now: Timestamp)
    requires !MatchThrows(items, books, reqs)
    requires ValidOrderedItems(items, reqs).Some?
    ensures StockUpdate(books, ValidOrderedItems(items, reqs).value, now).error != Some(404)
  {
    AcceptedLinesExist(items, books, reqs);
    StockUpdateNo404(books, ValidOrderedItems(items, reqs).value, now);
  }

  /**
   * A worked checkout: the cart holds 3 copies of book 1 on a line priced
   * 30 and 2 are ordered. The order line keeps the whole line price 30 for
   * 2 copies, the order total is 30, and the cart keeps 1 copy still priced
   * 30, for a cart total of 30.
   */
  lemma CheckoutExample()
    ensures ValidOrderedItems([LineItem(1, 3, 30.0)], [RequestedItem(1, 2)]) == Some([LineItem(1, 2, 30.0)])
    ensures CalculateOrderTotal([LineItem(1, 2, 30.0)]) == 30.0
    ensures ShrinkCart([LineItem(1, 3, 30.0)], [RequestedItem(1, 2)]) == [LineItem(1, 1, 30.0)]
    ensures CartValue([LineItem(1, 1, 30.0)]) == 30.0
  {
    var v := ValidOrderedItems([LineItem(1, 3, 30.0)], [RequestedItem(1, 2)]);
    assert Coverable([LineItem(1, 3, 30.0)], [RequestedItem(1, 2)][0]);
    assert v.value[0] == LineItem(1, 2, 30.0);
    assert v.value == [v.value[0]];
    assert ShrinkCart([LineItem(1, 3, 30.0)][1..], [RequestedItem(1, 2)]) == [];
  }

  /**
   * Two totals disagree after a partial checkout: a line of 3 copies priced
   * 90 (unit price 30), of which 1 is ordered, yields an order of total 90
   * for one copy, and a cart of 2 copies whose price-times-quantity total is
   * 180 while its lines' prices sum to 90.
   */
  lemma CheckoutTotalsDisagree()
    ensures ValidOrderedItems([LineItem(1, 3, 90.0)], [RequestedItem(1, 1)]) == Some([LineItem(1, 1, 90.0)])
    ensures CalculateOrderTotal([LineItem(1, 1, 90.0)]) == 90.0
    ensures ShrinkCart([LineItem(1, 3, 90.0)], [RequestedItem(1, 1)]) == [LineItem(1, 2, 90.0)]
    ensures CartValue([LineItem(1, 2, 90.0)]) == 180.0
    ensures CalculateOrderTotal([LineItem(1, 2, 90.0)]) == 90.0
  {
    var v := ValidOrderedItems([LineItem(1, 3, 90.0)], [RequestedItem(1, 1)]);
    assert Coverable([LineItem(1, 3, 90.0)], [RequestedItem(1, 1)][0]);
    assert v.value[0] == LineItem(1, 1, 90.0);
    assert v.value == [v.value[0]];
    assert ShrinkCart([LineItem(1, 3, 90.0)][1..], [RequestedItem(1, 1)]) == [];
  }

  /** `orderedItems.find(...)`: the first request for `book`. */
  function FirstRequest(reqs: seq<RequestedItem>, book: BookId): (r: Option<RequestedItem>)
    ensures r.Some? ==> r.value.book == book && r.value in reqs
    ensures r.Some? ==> exists k :: 0 <= k < |reqs| && reqs[k] == r.value && forall j :: 0 <= j < k ==> reqs[j].book != book
    ensures r.None? <==> forall j :: 0 <= j < |reqs| ==> reqs[j].book != book
  {
    if reqs == [] then None
    else if reqs[0].book == book then Some(reqs[0])
    else
      var r := FirstRequest(reqs[1..], book);
      if r.Some? then
        var k :| 0 <= k < |reqs[1..]| && reqs[1..][k] == r.value && forall j :: 0 <= j < k ==> reqs[1..][j].book != book;
        assert reqs[k + 1] == r.value;
        assert forall j :: 0 <= j < k + 1 ==> reqs[j].book != book by {
          forall j | 0 <= j < k + 1 ensures reqs[j].book != book {
            if j > 0 { assert reqs[j] == reqs[1..][j - 1]; }
          }
        }
        r
      else r
  }

  /**
   * The shrinking callback for one cart line: an unrequested line stays; a
   * requested one loses the first request's quantity, keeps its old `price`,
   * and is dropped when nothing remains.
   */
  function Shrunk(line: LineItem, reqs: seq<RequestedItem>): (s: Option<LineItem>)
    ensures s.Some? ==> s.value.book == line.book && s.value.price == line.price
  {
    match FirstRequest(reqs, line.book)
    case None => Some(line)
    case Some(req) =>
      if line.quantity - req.quantity > 0 then Some(line.(quantity := line.quantity - req.quantity)) else None
  }

  /** The cart lines after checkout: each line shrunk, the dropped ones filtered out. */
  function ShrinkCart(items: seq<LineItem>, reqs: seq<RequestedItem>): (r: seq<LineItem>)
    ensures |r| <= |items|
    ensures forall l :: l in r ==> exists i :: 0 <= i < |items| && Shrunk(items[i], reqs) == Some(l)
    ensures forall i :: 0 <= i < |items| && Shrunk(items[i], reqs).Some? ==> Shrunk(items[i], reqs).value in r
    ensures LinesOk(items) ==> LinesOk(r)
  {
    if items == [] then []
    else match Shrunk(items[0], reqs)
      case Some(l) => [l] + ShrinkCart(items[1..], reqs)
      case None => ShrinkCart(items[1..], reqs)
  }

  /** Shrinking keeps one line per book. */
  lemma {:induction false} ShrinkCartDistinct(items: seq<LineItem>, reqs: seq<RequestedItem>)
    requires DistinctBooks(items)
    ensures DistinctBooks(ShrinkCart(items, reqs))
  {
    if items != [] {
      ShrinkCartDistinct(items[1..], reqs);
      var rest := ShrinkCart(items[1..], reqs);
      forall j | 0 <= j < |rest| ensures rest[j].book != items[0].book {
        var i :| 0 <= i < |items[1..]| && Shrunk(items[1..][i], reqs) == Some(rest[j]);
        assert items[1..][i] == items[i + 1];
      }
    }
  }

  /**
   * What checkout does to the line of one book: an unrequested line is kept
   * as is; a requested line loses the first request's quantity and keeps
   * its price, or disappears when nothing remains.
   */
  lemma ShrinkCartBook(items: seq<LineItem>, reqs: seq<RequestedItem>, i: nat)
    requires DistinctBooks(items) && i < |items|
    ensures var r := ShrinkCart(items, reqs);
      match FirstRequest(reqs, items[i].book)
      case None => items[i] in r
      case Some(req) =>
        if items[i].quantity - req.quantity > 0
        then items[i].(quantity := items[i].quantity - req.quantity) in r
        else forall l :: l in r ==> l.book != items[i].book
  {
    var r := ShrinkCart(items, reqs);
    var own := Shrunk(items[i], reqs);
    if own.None? {
      forall l | l in r ensures l.book != items[i].book {
        var k :| 0 <= k < |items| && Shrunk(items[k], reqs) == Some(l);
        assert k != i;
        assert l.book == items[k].book;
      }
    } else {
      assert own.value in r;
    }
  }

  /**
   * Shrinking works line by line over the cart in order: shrinking two runs
   * of lines one after the other is shrinking their concatenation, so the
   * surviving lines keep their cart order.
   */
  lemma {:induction false} ShrinkCartAppend(a: seq<LineItem>, b: seq<LineItem>, reqs: seq<RequestedItem>)
    ensures ShrinkCart(a + b, reqs) == ShrinkCart(a, reqs) + ShrinkCart(b, reqs)
  {
    if a == [] {
      assert a + b == b;
    } else {
      assert (a + b)[0] == a[0];
      assert (a + b)[1..] == a[1..] + b;
      ShrinkCartAppend(a[1..], b, reqs);
    }
  }

  /** A checkout that names none of the cart's books leaves the lines as they were. */
  lemma {:induction false} ShrinkCartUnrequested(items: seq<LineItem>, reqs: seq<RequestedItem>)
    requires forall i, j :: 0 <= i < |items| && 0 <= j < |reqs| ==> items[i].book != reqs[j].book
    ensures ShrinkCart(items, reqs) == items
  {
    if items != [] {
      ShrinkCartUnrequested(items[1..], reqs);
      assert [items[0]] + items[1..] == items;
    }
  }

  /** The cart total checkout writes: the sum of price × quantity. */
  function CartValue(items: seq<LineItem>): (total: real)
    ensures items == [] ==> total == 0.0
    ensures (forall i :: 0 <= i < |items| ==> items[i].price >= 0.0 && items[i].quantity >= 0) ==> total >= 0.0
  {
    if items == [] then 0.0 else items[0].price * items[0].quantity as real + CartValue(items[1..])
  }

  /** The shipping address the order stores: the request's strings as sent, untrimmed. */
  function AddressOf(shipping: Option<Body>): (a: Option<ShippingAddress>)
    requires ShippingAddressValid(shipping)
    ensures a.None? <==> shipping.None?
    ensures a.Some? ==> var b := shipping.value;
      a.value == ShippingAddress(b["street"].s, b["city"].s, b["state"].s, b["zipCode"].s, b["country"].s)
    ensures a.Some? ==>
      && ZipPattern(Trim(a.value.zipCode)) && Trim(a.value.street) != "" && Trim(a.value.city) != ""
      && Trim(a.value.state) != "" && Trim(a.value.country) != ""
  {
    match shipping
    case None => None
    case Some(b) =>
      Some(ShippingAddress(b["street"].s, b["city"].s, b["state"].s, b["zipCode"].s, b["country"].s))
  }

  /**
   * `createOrder`. An invalid address, a missing or empty cart, or an
   * uncoverable request answer 400 and change nothing; a lookup that meets a
   * line of a deleted book throws (500). The stock loop then runs; when it
   * fails, its earlier decrements stay and nothing else is saved. Otherwise
   * the new pending order is saved, the cart shrunk with total
   * Σ price × quantity, and the order recorded on the user.
   */
  method CreateOrder(db: Db, uid: UserId, shipping: Option<Body>, requested: seq<RequestedItem>, now: Timestamp)
    returns (r: Reply<Order>)
    requires db.Valid() && uid in db.users
    modifies db
    ensures db.Valid()
    ensures !ShippingAddressValid(shipping) ==> r == Fail(400) && unchanged(db)
    ensures ShippingAddressValid(shipping) && (uid !in old(db.carts) || old(db.carts[uid].items) == []) ==>
      r == Fail(400) && unchanged(db)
    ensures ShippingAddressValid(shipping) && uid in old(db.carts) && old(db.carts[uid].items) != [] ==>
      var items := old(db.carts[uid].items);
      if MatchThrows(items, old(db.books), requested) then r == Fail(500) && unchanged(db)
      else if ValidOrderedItems(items, requested).None? then r == Fail(400) && unchanged(db)
      else
        var lines := ValidOrderedItems(items, requested).value;
        var stock := StockUpdate(old(db.books), lines, now);
        && db.books == stock.books
        && (stock.error.Some? || ShrinkThrows(items, old(db.books), requested) ==>
              && r == Fail(if stock.error.Some? then stock.error.value else 500)
              && db.carts == old(db.carts) && db.orders == old(db.orders)
              && db.users == old(db.users) && db.nextId == old(db.nextId))
        && (stock.error.None? && !ShrinkThrows(items, old(db.books), requested) ==>
              var id := old(db.nextId);
              var left := ShrinkCart(items, requested);
              && r == Ok(Order(id, uid, lines, CalculateOrderTotal(lines), AddressOf(shipping), Pending, PaymentPending))
              && db.orders == old(db.orders)[id := r.data]
              && db.carts == old(db.carts)[uid := old(db.carts[uid]).(items := left, totalAmount := CartValue(left))]
              && db.users == old(db.users)[uid := old(db.users[uid]).(orders := AppendIfAbsent(old(db.users[uid].orders), id))]
              && db.nextId == id + 1)
  {
    if !ShippingAddressValid(shipping) {
      return Fail(400);
    }
    if uid !in db.carts || db.carts[uid].items == [] {
      return Fail(400);
    }
    var cart := db.carts[uid];
    if MatchThrows(cart.items, db.books, requested) {
      return Fail(500);
    }
    var valid := ValidOrderedItems(cart.items, requested);
    if valid.None? {
      return Fail(400);
    }
    var lines := valid.value;
    var id := db.nextId;
    var order := Order(id, uid, lines, CalculateOrderTotal(lines), AddressOf(shipping), Pending, PaymentPending);
    ghost var before := db.books;
    var error := UpdateBookStockAndTrackSales(db, lines, now);
    forall k | k in db.books ensures db.books[k].id == before[k].id {
      StockUpdateFrame(before, lines, now, k);
    }
    BooksOkFrame(before, db.books, db.nextId);
    if error.Some? {
      return Fail(error.value);
    }
    if ShrinkThrows(cart.items, db.books, requested) {
      return Fail(500);
    }
    SaveCheckout(db, uid, cart, requested, order);
    r := Ok(order);
  }

  /**
   * The saves that end a successful checkout: the order under the fresh id,
   * the shrunk cart, and the order id on the user's list.
   */
  method SaveCheckout(db: Db, uid: UserId, cart: Cart, requested: seq<RequestedItem>, order: Order)
    requires db.Valid() && uid in db.users && uid in db.carts && db.carts[uid] == cart
    requires order.id == db.nextId
    modifies db
    ensures db.Valid()
    ensures db.books == old(db.books) && db.nextId == old(db.nextId) + 1
    ensures db.orders == old(db.orders)[order.id := order]
    ensures var left := ShrinkCart(cart.items, requested);
      db.carts == old(db.carts)[uid := cart.(items := left, totalAmount := CartValue(left))]
    ensures db.users == old(db.users)[uid := old(db.users[uid]).(orders := AppendIfAbsent(old(db.users[uid].orders), order.id))]
  {
    var left := ShrinkCart(cart.items, requested);
    ShrinkCartDistinct(cart.items, requested);
    assert CartOk(uid, cart, db.nextId);
    Grow(db.books, db.carts, db.orders, db.nextId, db.nextId + 1);
    db.nextId := db.nextId + 1;
    db.orders := db.orders[order.id := order];
    var user := db.users[uid];
    var user' := user.(orders := AppendIfAbsent(user.orders, order.id));
    UsersOkListUpdate(db.users, uid, user');
    db.users := db.users[uid := user'];
    var shrunk := cart.(items := left, totalAmount := CartValue(left));
    CartsOkUpdate(db.carts, db.nextId, uid, shrunk);
    db.carts := db.carts[uid := shrunk];
  }

  /** Only a pending or processing order may be removed. */
  predicate Removable(status: OrderStatus) {
    status == Pending || status == Processing
  }

  /**
   * `removeOrder`. Only the caller's own order is found (the admin branch
   * reads a field users do not have): 404 otherwise. A shipped, delivered
   * or cancelled order gives 400. Success credits each line's quantity back
   * to its book's `quantity` and deletes the order; the user's order list
   * keeps the id.
   */
  method RemoveOrder(db: Db, uid: UserId, orderId: OrderId) returns (r: Reply<()>)
    requires db.Valid() && uid in db.users
    modifies db
    ensures db.Valid()
    ensures orderId !in old(db.orders) || old(db.orders[orderId].user) != uid ==> r == Fail(404) && unchanged(db)
    ensures orderId in old(db.orders) && old(db.orders[orderId].user) == uid && !Removable(old(db.orders[orderId].status)) ==>
      r == Fail(400) && unchanged(db)
    ensures orderId in old(db.orders) && old(db.orders[orderId].user) == uid && Removable(old(db.orders[orderId].status)) ==>
      && r == Ok(())
      && db.books == Credited(old(db.books), old(db.orders[orderId].items))
      && db.orders == old(db.orders) - {orderId}
      && db.carts == old(db.carts) && db.users == old(db.users) && db.nextId == old(db.nextId)
  {
    if orderId !in db.orders || db.orders[orderId].user != uid {
      return Fail(404);
    }
    var order := db.orders[orderId];
    if !Removable(order.status) {
      return Fail(400);
    }
    ghost var before := db.books;
    RestoreBookStock(db, order.items);
    forall k | k in db.books ensures db.books[k].id == before[k].id {
      CreditedBook(before, order.items, k);
    }
    BooksOkFrame(before, db.books, db.nextId);
    db.orders := db.orders - {orderId};
    r := Ok(());
  }

  /** `updateOrderStatus`: 400 for a missing order; otherwise the status is overwritten, whatever it was. */
  method UpdateOrderStatus(db: Db, orderId: OrderId, status: OrderStatus) returns (r: Reply<Order>)
    requires db.Valid()
    modifies db
    ensures db.Valid()
    ensures orderId !in old(db.orders) ==> r == Fail(400) && unchanged(db)
    ensures orderId in old(db.orders) ==>
      && r == Ok(old(db.orders[orderId]).(status := status))
      && db.orders == old(db.orders)[orderId := r.data]
      && db.books == old(db.books) && db.carts == old(db.carts)
      && db.users == old(db.users) && db.nextId == old(db.nextId)
  {
    if orderId !in db.orders {
      return Fail(400);
    }
    var order := db.orders[orderId].(status := status);
    db.orders := db.orders[orderId := order];
    r := Ok(order);
  }

  /** `updatePaymentStatus`: 400 for a missing order; otherwise the payment status is overwritten. */
  method UpdatePaymentStatus(db: Db, orderId: OrderId, paymentStatus: PaymentStatus) returns (r: Reply<Order>)
    requires db.Valid()
    modifies db
    ensures db.Valid()
    ensures orderId !in old(db.orders) ==> r == Fail(400) && unchanged(db)
    ensures orderId in old(db.orders) ==>
      && r == Ok(old(db.orders[orderId]).(paymentStatus := paymentStatus))
      && db.orders == old(db.orders)[orderId := r.data]
      && db.books == old(db.books) && db.carts == old(db.carts)
      && db.users == old(db.users) && db.nextId == old(db.nextId)
  {
    if orderId !in db.orders {
      return Fail(400);
    }
    var order := db.orders[orderId].(paymentStatus := paymentStatus);
    db.orders := db.orders[orderId := order];
    r := Ok(order);
  }
}

/** The order helpers: totals, the stock check, the stock decrement loop and the stock restore loop. */
module OrderUtils {
  import opened Common
  import opened BookModel
  import opened Database

  /** `calculateOrderTotal`: the sum of the lines' `price` fields; quantities play no part. */
  function CalculateOrderTotal(items: seq<LineItem>): (total: real)
    ensures items == [] ==> total == 0.0
    ensures (forall i :: 0 <= i < |items| ==> items[i].price >= 0.0) ==> total >= 0.0
  {
    if items == [] then 0.0 else items[0].price + CalculateOrderTotal(items[1..])
  }

  lemma {:induction false} CalculateOrderTotalAppend(a: seq<LineItem>, b: seq<LineItem>)
    ensures CalculateOrderTotal(a + b) == CalculateOrderTotal(a) + CalculateOrderTotal(b)
  {
    if a != [] {
      assert (a + b)[0] == a[0] && (a + b)[1..] == a[1..] + b;
      CalculateOrderTotalAppend(a[1..], b);
    } else {
      assert a + b == b;
    }
  }

  /** The total of lines that all carry the same price is that price times their number. */
  lemma {:induction false} CalculateOrderTotalUniform(items: seq<LineItem>, p: real)
    requires forall i :: 0 <= i < |items| ==> items[i].price == p
    ensures CalculateOrderTotal(items) == p * |items| as real
  {
    if items != [] {
      CalculateOrderTotalUniform(items[1..], p);
    }
  }

  /** Every line's book exists and its `quantity` field covers the line. */
  predicate CoveredByQuantity(books: map<BookId, Book>, items: seq<LineItem>) {
    forall i :: 0 <= i < |items| ==> items[i].book in books && books[items[i].book].quantity >= items[i].quantity
  }

  /**
   * `validateOrderItems`: a read-only loop that answers false at the first
   * line whose book is missing or whose `quantity` (not `inStock`) is short.
   */
  method ValidateOrderItems(db: Db, items: seq<LineItem>) returns (ok: bool)
    ensures ok <==> CoveredByQuantity(db.books, items)
  {
    var i := 0;
    while i < |items|
      invariant 0 <= i <= |items|
      invariant CoveredByQuantity(db.books, items[..i])
    {
      var item := items[i];
      if item.book !in db.books || db.books[item.book].quantity < item.quantity {
        return false;
      }
      assert items[..i + 1] == items[..i] + [item];
      i := i + 1;
    }
    assert items[..i] == items;
    return true;
  }

  /** One sold line: `$inc: { inStock: -quantity }` and `lastSoldAt: now`. */
  function Sold(b: Book, quantity: int, now: Timestamp): Book {
    b.(inStock := b.inStock - quantity, lastSoldAt := Some(now))
  }

  /** The books after the stock loop, and the status it threw, if any. */
  datatype StockResult = StockResult(books: map<BookId, Book>, error: Option<int>)

  /** Only `inStock` and `lastSoldAt` of `b` may differ from `a`. */
  predicate SameButStock(a: Book, b: Book) {
    b == a.(inStock := b.inStock, lastSoldAt := b.lastSoldAt)
  }

  /**
   * `updateBookStockAndTrackSales`: the lines in order; a missing book throws
   * 404 and a short `inStock` throws 400, and the decrements already done
   * stay in place.
   */
  function StockUpdate(books: map<BookId, Book>, items: seq<LineItem>, now: Timestamp): (r: StockResult)
    ensures r.books.Keys == books.Keys
    ensures r.error.None? || r.error == Some(404) || r.error == Some(400)
    decreases |items|
  {
    if items == [] then StockResult(books, None)
    else
      var item := items[0];
      if item.book !in books then StockResult(books, Some(404))
      else if books[item.book].inStock < item.quantity then StockResult(books, Some(400))
      else StockUpdate(books[item.book := Sold(books[item.book], item.quantity, now)], items[1..], now)
  }

  /**
   * What the loop may do to one book: change only `inStock` and
   * `lastSoldAt`, never take a changed `inStock` below 0, and stamp only
   * with the time of the sale.
   */
  lemma {:induction false} StockUpdateFrame(books: map<BookId, Book>, items: seq<LineItem>, now: Timestamp, k: BookId)
    requires k in books
    ensures var after := StockUpdate(books, items, now).books[k];
      && SameButStock(books[k], after)
      && (after.inStock >= 0 || after.inStock == books[k].inStock)
      && (after.lastSoldAt == books[k].lastSoldAt || after.lastSoldAt == Some(now))
    decreases |items|
  {
    if items != [] {
      var item := items[0];
      if item.book in books && books[item.book].inStock >= item.quantity {
        StockUpdateFrame(books[item.book := Sold(books[item.book], item.quantity, now)], items[1..], now, k);
      }
    }
  }

  /** When every line's book exists, the loop never reports a missing book. */
  lemma {:induction false} StockUpdateNo404(books: map<BookId, Book>, items: seq<LineItem>, now: Timestamp)
    requires forall i :: 0 <= i < |items| ==> items[i].book in books
    ensures StockUpdate(books, items, now).error != Some(404)
    decreases |items|
  {
    if items != [] {
      var item := items[0];
      if books[item.book].inStock >= item.quantity {
        StockUpdateNo404(books[item.book := Sold(books[item.book], item.quantity, now)], items[1..], now);
      }
    }
  }

  /** Running two lists one after the other is running their concatenation; a failure ends the run. */
  lemma {:induction false} StockUpdateAppend(books: map<BookId, Book>, xs: seq<LineItem>, ys: seq<LineItem>, now: Timestamp)
    ensures StockUpdate(books, xs + ys, now) ==
      var first := StockUpdate(books, xs, now);
      if first.error.Some? then first else StockUpdate(first.books, ys, now)
    decreases |xs|
  {
    if xs != [] {
      assert (xs + ys)[0] == xs[0] && (xs + ys)[1..] == xs[1..] + ys;
      var item := xs[0];
      if item.book in books && books[item.book].inStock >= item.quantity {
        StockUpdateAppend(books[item.book := Sold(books[item.book], item.quantity, now)], xs[1..], ys, now);
      }
    } else {
      assert xs + ys == ys;
    }
  }

  /**
   * No rollback: when line `k` is the first to fail, the result holds exactly
   * the decrements of the lines before it.
   */
  lemma NoRollback(books: map<BookId, Book>, items: seq<LineItem>, k: nat, now: Timestamp)
    requires k < |items|
    requires StockUpdate(books, items[..k], now).error.None?
    requires StockUpdate(StockUpdate(books, items[..k], now).books, [items[k]], now).error.Some?
    ensures StockUpdate(books, items, now).books == StockUpdate(books, items[..k], now).books
    ensures StockUpdate(books, items, now).error.Some?
  {
    var before := StockUpdate(books, items[..k], now);
    assert items == items[..k] + ([items[k]] + items[k + 1..]);
    StockUpdateAppend(books, items[..k], [items[k]] + items[k + 1..], now);
    StockUpdateAppend(before.books, [items[k]], items[k + 1..], now);
  }

  /** The sum of the quantities of the lines for `book`. */
  function QuantityFor(items: seq<LineItem>, book: BookId): int {
    if items == [] then 0
    else QuantityFor(items[..|items| - 1], book) + (if items[|items| - 1].book == book then items[|items| - 1].quantity else 0)
  }

  /** On success a book has lost exactly the quantities of its lines. */
  lemma {:induction false} StockUpdateInStock(books: map<BookId, Book>, items: seq<LineItem>, now: Timestamp, k: BookId)
    requires k in books
    requires StockUpdate(books, items, now).error.None?
    ensures StockUpdate(books, items, now).books[k].inStock == books[k].inStock - QuantityFor(items, k)
    decreases |items|
  {
    if items != [] {
      var init := items[..|items| - 1];
      var last := items[|items| - 1];
      assert items == init + [last];
      StockUpdateAppend(books, init, [last], now);
      StockUpdateInStock(books, init, now, k);
      assert [last][1..] == [];
    }
  }

  /** On success every book with a line is stamped with the time of the sale. */
  lemma {:induction false} StockUpdateStamps(books: map<BookId, Book>, items: seq<LineItem>, now: Timestamp, i: nat)
    requires i < |items| && items[i].book in books
    requires StockUpdate(books, items, now).error.None?
    ensures StockUpdate(books, items, now).books[items[i].book].lastSoldAt == Some(now)
    decreases |items|
  {
    var init := items[..|items| - 1];
    var last := items[|items| - 1];
    assert items == init + [last];
    StockUpdateAppend(books, init, [last], now);
    assert [last][1..] == [];
    if i < |init| {
      StockUpdateStamps(books, init, now, i);
    }
  }

  /** `book.quantity += quantity`. */
  function Restocked(b: Book, quantity: int): Book {
    b.(quantity := b.quantity + quantity)
  }

  /** `book.quantity += item.quantity` for a book that exists; a missing book is skipped. */
  function Credit(books: map<BookId, Book>, item: LineItem): (r: map<BookId, Book>)
    ensures r.Keys == books.Keys
  {
    if item.book in books then books[item.book := Restocked(books[item.book], item.quantity)] else books
  }

  /** Crediting a line adds its quantity to its own book's `quantity` and changes nothing else. */
  lemma CreditBook(books: map<BookId, Book>, item: LineItem, k: BookId)
    requires k in books
    ensures Credit(books, item)[k] == books[k].(quantity := books[k].quantity + if k == item.book then item.quantity else 0)
  {
  }

  /** The lines credited one after the other, as `restoreBookStock` and `clearCart` loop over them. */
  function Credited(books: map<BookId, Book>, items: seq<LineItem>): (r: map<BookId, Book>)
    ensures r.Keys == books.Keys
  {
    if items == [] then books else Credit(Credited(books, items[..|items| - 1]), items[|items| - 1])
  }

  /** Each book gains the quantities of its lines in its `quantity` field, and nothing else changes. */
  lemma {:induction false} CreditedBook(books: map<BookId, Book>, items: seq<LineItem>, k: BookId)
    requires k in books
    ensures Credited(books, items)[k] == books[k].(quantity := books[k].quantity + QuantityFor(items, k))
  {
    if items != [] {
      CreditedBook(books, items[..|items| - 1], k);
    }
  }

  lemma CreditedStep(books: map<BookId, Book>, items: seq<LineItem>, i: nat)
    requires i < |items|
    ensures Credited(books, items[..i + 1]) == Credit(Credited(books, items[..i]), items[i])
  {
    assert items[..i + 1][..i] == items[..i];
  }

  /** `restoreBookStock`: credit each line's quantity to its book's `quantity` field (not `inStock`). */
  method RestoreBookStock(db: Db, items: seq<LineItem>)
    modifies db
    ensures db.books == Credited(old(db.books), items)
    ensures db.carts == old(db.carts) && db.orders == old(db.orders)
    ensures db.users == old(db.users) && db.nextId == old(db.nextId)
  {
    var i := 0;
    while i < |items|
      invariant 0 <= i <= |items|
      invariant db.books == Credited(old(db.books), items[..i])
      invariant db.carts == old(db.carts) && db.orders == old(db.orders)
      invariant db.users == old(db.users) && db.nextId == old(db.nextId)
    {
      var item := items[i];
      if item.book in db.books {
        var book := db.books[item.book];
        db.books := db.books[item.book := Restocked(book, item.quantity)];
      }
      CreditedStep(old(db.books), items, i);
      i := i + 1;
    }
    assert items[..i] == items;
  }

  /**
   * `updateBookStockAndTrackSales` as the loop it is: each line re-reads its
   * book, so the check always sees the decrements made before it.
   */
  method UpdateBookStockAndTrackSales(db: Db, items: seq<LineItem>, now: Timestamp) returns (error: Option<int>)
    modifies db
    ensures db.books == StockUpdate(old(db.books), items, now).books
    ensures error == StockUpdate(old(db.books), items, now).error
    ensures db.carts == old(db.carts) && db.orders == old(db.orders)
    ensures db.users == old(db.users) && db.nextId == old(db.nextId)
  {
    var i := 0;
    while i < |items|
      invariant 0 <= i <= |items|
      invariant StockUpdate(old(db.books), items, now) == StockUpdate(db.books, items[i..], now)
      invariant db.carts == old(db.carts) && db.orders == old(db.orders)
      invariant db.users == old(db.users) && db.nextId == old(db.nextId)
    {
      var item := items[i];
      if item.book !in db.books {
        return Some(404);
      }
      var book := db.books[item.book];
      if book.inStock < item.quantity {
        return Some(400);
      }
      db.books := db.books[item.book := Sold(book, item.quantity, now)];
      assert items[i..][1..] == items[i + 1..];
      i := i + 1;
    }
    return None;
  }
}

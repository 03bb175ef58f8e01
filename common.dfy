/**
 * Shared vocabulary of the bookstore backend: document ids, time, the
 * (book, quantity, price) line triple and the HTTP reply of a controller.
 */
module Common {

  /** MongoDB ObjectIds. All kinds of document share one id space. */
  type Id = nat
  type BookId = Id
  type UserId = Id
  type CartId = Id
  type OrderId = Id

  /** Dates become integer timestamps in milliseconds. */
  type Timestamp = int

  const DAY_MS: int := 86_400_000

  /** The "last 30 days" window used by the trending and recently-sold listings. */
  const THIRTY_DAYS_MS: int := 30 * DAY_MS

  datatype Option<+T> = None | Some(value: T)

  /**
   * One line of a cart or of an order: ICartItem and IOrderItem have the
   * same three fields. `price` is money, modelled as an exact real.
   */
  datatype LineItem = LineItem(book: BookId, quantity: int, price: real)

  /**
   * What a controller answers: success carries the payload (status 200),
   * failure carries the HTTP status code of the error.
   */
  datatype Reply<+T> = Ok(data: T) | Fail(status: int)
  {
    function Status(): int {
      if Ok? then 200 else status
    }
  }

  /** Books of a list of lines, in order. */
  function Books(items: seq<LineItem>): (r: seq<BookId>)
    ensures |r| == |items|
    ensures forall i :: 0 <= i < |items| ==> r[i] == items[i].book
  {
    if items == [] then [] else [items[0].book] + Books(items[1..])
  }

  /** No two lines refer to the same book. */
  predicate DistinctBooks(items: seq<LineItem>) {
    forall i, j :: 0 <= i < j < |items| ==> items[i].book != items[j].book
  }

  /**
   * Index of the first line for `book`, as `Array.prototype.find` on the
   * line list returns it.
   */
  function FindLine(items: seq<LineItem>, book: BookId): (r: Option<nat>)
    ensures r.Some? ==> r.value < |items| && items[r.value].book == book
    ensures r.Some? ==> forall j :: 0 <= j < r.value ==> items[j].book != book
    ensures r.None? <==> forall j :: 0 <= j < |items| ==> items[j].book != book
  {
    if items == [] then None
    else if items[0].book == book then Some(0)
    else match FindLine(items[1..], book)
      case None => None
      case Some(i) => Some(i + 1)
  }

  /** In a list without repeated books, the line found is the only one for its book. */
  lemma FindLineUnique(items: seq<LineItem>, book: BookId)
    requires DistinctBooks(items)
    requires FindLine(items, book).Some?
    ensures forall j :: 0 <= j < |items| && items[j].book == book ==> j == FindLine(items, book).value
  {
  }

  /** The line at `i` is the first one for `book`, so it is the one `find` returns. */
  lemma FindLineIs(items: seq<LineItem>, book: BookId, i: nat)
    requires i < |items| && items[i].book == book
    requires forall j :: 0 <= j < i ==> items[j].book != book
    ensures FindLine(items, book) == Some(i)
  {
  }

  /** `if (!list.includes(x)) list.push(x)` */
  function AppendIfAbsent(xs: seq<Id>, x: Id): (r: seq<Id>)
    ensures x in r
    ensures x in xs ==> r == xs
    ensures x !in xs ==> r == xs + [x]
  {
    if x in xs then xs else xs + [x]
  }

  /** Mongo's `$pull`: every occurrence of `x` removed, the rest in order. */
  function PullAll(xs: seq<Id>, x: Id): (r: seq<Id>)
    ensures x !in r
    ensures forall y :: y != x ==> (y in r <==> y in xs)
    ensures |r| <= |xs|
  {
    if xs == [] then []
    else if xs[0] == x then PullAll(xs[1..], x)
    else [xs[0]] + PullAll(xs[1..], x)
  }

  lemma {:induction false} PullAllAbsent(xs: seq<Id>, x: Id)
    requires x !in xs
    ensures PullAll(xs, x) == xs
  {
    if xs != [] {
      PullAllAbsent(xs[1..], x);
    }
  }

  /** `items.filter(item => item.book !== book)`: every line for `book` dropped, the rest in order. */
  function WithoutBook(items: seq<LineItem>, book: BookId): (r: seq<LineItem>)
    ensures forall l :: l in r <==> l in items && l.book != book
    ensures |r| <= |items|
    ensures |r| == |items| <==> forall j :: 0 <= j < |items| ==> items[j].book != book
  {
    if items == [] then []
    else if items[0].book == book then WithoutBook(items[1..], book)
    else [items[0]] + WithoutBook(items[1..], book)
  }

  /** Filtering keeps a list free of repeated books. */
  lemma {:induction false} WithoutBookDistinct(items: seq<LineItem>, book: BookId)
    requires DistinctBooks(items)
    ensures DistinctBooks(WithoutBook(items, book))
  {
    if items != [] {
      var rest := WithoutBook(items[1..], book);
      WithoutBookDistinct(items[1..], book);
      if items[0].book != book {
        forall j | 0 <= j < |rest| ensures rest[j].book != items[0].book {
          assert rest[j] in items[1..];
        }
      }
    }
  }
}

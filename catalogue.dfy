/**
 * The catalogue listings: each selects books from the collection (given in
 * its natural order), orders them, and returns one page.
 */
module Catalogue {
  import opened Common
  import opened Text
  import opened BookModel
  import opened Pagination

  /** A two-field sort specification `{ first: -1, second: -1 }`. */
  datatype Key = Key(first: int, second: int)

  /** `a` may come before `b` in a descending sort on the key. */
  predicate AtLeast(a: Key, b: Key) {
    a.first > b.first || (a.first == b.first && a.second >= b.second)
  }

  predicate SortedDesc(xs: seq<Book>, key: Book -> Key) {
    forall i, j :: 0 <= i < j < |xs| ==> AtLeast(key(xs[i]), key(xs[j]))
  }

  function Insert(x: Book, xs: seq<Book>, key: Book -> Key): (r: seq<Book>)
    requires SortedDesc(xs, key)
    ensures SortedDesc(r, key)
    ensures multiset(r) == multiset(xs) + multiset{x}
    ensures forall y :: y in r <==> y == x || y in xs
  {
    if xs == [] || AtLeast(key(x), key(xs[0])) then [x] + xs
    else
      var rest := Insert(x, xs[1..], key);
      assert xs == [xs[0]] + xs[1..];
      assert forall j :: 0 <= j < |rest| ==> AtLeast(key(xs[0]), key(rest[j])) by {
        forall j | 0 <= j < |rest| ensures AtLeast(key(xs[0]), key(rest[j])) {
          assert rest[j] in rest;
          if rest[j] != x {
            var m :| 0 <= m < |xs[1..]| && xs[1..][m] == rest[j];
            assert xs[m + 1] == rest[j];
          }
        }
      }
      [xs[0]] + rest
  }

  /**
   * `.sort({ ... })` in descending order: a permutation of the input that is
   * ordered by the key. Equal keys keep their collection order.
   */
  function SortDesc(xs: seq<Book>, key: Book -> Key): (r: seq<Book>)
    ensures SortedDesc(r, key)
    ensures multiset(r) == multiset(xs)
    ensures |r| == |xs| && forall b :: b in r <==> b in xs
  {
    if xs == [] then []
    else
      assert xs == [xs[0]] + xs[1..];
      Insert(xs[0], SortDesc(xs[1..], key), key)
  }

  /** `find(filter)`: the books satisfying `p`, in collection order. */
  function Filter(books: seq<Book>, p: Book -> bool): (r: seq<Book>)
    ensures forall b :: b in r <==> b in books && p(b)
    ensures |r| <= |books|
  {
    if books == [] then []
    else if p(books[0]) then [books[0]] + Filter(books[1..], p)
    else Filter(books[1..], p)
  }

  lemma {:induction false} FilterNone(books: seq<Book>, p: Book -> bool)
    requires forall b :: b in books ==> !p(b)
    ensures Filter(books, p) == []
  {
    if books != [] {
      assert books[0] in books;
      FilterNone(books[1..], p);
    }
  }

  /**
   * One listing page: the books, the number of matching books, the page
   * echoed back, the page count, and the limit for the listings whose
   * `pagination` object also echoes it.
   */
  datatype Listing = Listing(books: seq<Book>, totalBooks: nat, currentPage: int, totalPages: Option<int>, echoedLimit: Option<int>)

  /**
   * The page of `ordered` the `find().skip().limit()` call returns, with
   * `total` as the reported count; a negative skip is a server error (500).
   */
  function Paged(ordered: seq<Book>, total: nat, page: int, limit: int): (r: Reply<Listing>)
    ensures r.Ok? <==> SkipCount(page, limit) >= 0
    ensures r.Ok? ==> r.data.totalBooks == total && r.data.currentPage == page && r.data.totalPages == TotalPages(total, limit)
    ensures r.Ok? ==> r.data.echoedLimit.None?
    ensures r.Ok? ==> Some(r.data.books) == FindWindow(ordered, SkipCount(page, limit), limit)
  {
    match FindWindow(ordered, SkipCount(page, limit), limit)
    case None => Fail(500)
    case Some(w) => Ok(Listing(w, total, page, TotalPages(total, limit), None))
  }

  /** A run of consecutive items of a sorted list is sorted. */
  lemma PagedSorted(ordered: seq<Book>, total: nat, page: int, limit: int, key: Book -> Key)
    requires SortedDesc(ordered, key)
    requires Paged(ordered, total, page, limit).Ok?
    ensures SortedDesc(Paged(ordered, total, page, limit).data.books, key)
  {
    var w := Paged(ordered, total, page, limit).data.books;
    var skip := SkipCount(page, limit);
    assert FindWindow(ordered, skip, limit) == Some(w);
    assert forall i :: 0 <= i < |w| ==> skip + i < |ordered| && w[i] == ordered[skip + i];
    forall i, j | 0 <= i < j < |w| ensures AtLeast(key(w[i]), key(w[j])) {
      assert w[i] == ordered[skip + i] && w[j] == ordered[skip + j];
    }
  }

  /**
   * A page of a ranking is a slice of it: every item before the page ranks
   * at least as high as every item on it, and every item on it at least as
   * high as every item after it.
   */
  lemma PageRanked(ordered: seq<Book>, total: nat, page: int, limit: int, key: Book -> Key)
    requires SortedDesc(ordered, key)
    requires Paged(ordered, total, page, limit).Ok?
    ensures var w := Paged(ordered, total, page, limit).data.books;
      var skip := SkipCount(page, limit);
      && (forall i, j :: 0 <= j < skip && j < |ordered| && 0 <= i < |w| ==> AtLeast(key(ordered[j]), key(w[i])))
      && (forall i, j :: 0 <= i < |w| && skip + |w| <= j < |ordered| ==> AtLeast(key(w[i]), key(ordered[j])))
  {
    var w := Paged(ordered, total, page, limit).data.books;
    var skip := SkipCount(page, limit);
    assert FindWindow(ordered, skip, limit) == Some(w);
    assert forall i :: 0 <= i < |w| ==> skip + i < |ordered| && w[i] == ordered[skip + i];
  }

  /** `getAllBooks`: every book, in collection order; page and limit default to 1 and 10. */
  function GetAllBooks(books: seq<Book>, page: Param, limit: Param): (r: Reply<Listing>)
    ensures r.Ok? <==> SkipCount(OrDefault(page, 1), OrDefault(limit, 10)) >= 0
    ensures r.Ok? ==> r.data.totalBooks == |books| && r.data.currentPage == OrDefault(page, 1)
    ensures r.Ok? ==> r.data.totalPages == TotalPages(|books|, OrDefault(limit, 10))
    ensures r.Ok? ==> r.data.echoedLimit.None?
    ensures r.Ok? ==> Some(r.data.books) == FindWindow(books, SkipCount(OrDefault(page, 1), OrDefault(limit, 10)), OrDefault(limit, 10))
    ensures page.Absent? && limit.Absent? ==> r == Ok(Listing(books[..Min(10, |books|)], |books|, 1, TotalPages(|books|, 10), None))
  {
    var p := OrDefault(page, 1);
    var l := OrDefault(limit, 10);
    var r := Paged(books, |books|, p, l);
    assert page.Absent? && limit.Absent? ==> r.Ok? && r.data.books == books[..Min(10, |books|)];
    r
  }

  predicate OwnedBy(b: Book, uid: UserId) {
    b.owner == uid
  }

  /** The caller's books, in collection order. */
  function UserBooks(books: seq<Book>, uid: UserId): (r: seq<Book>)
    ensures forall b :: b in r <==> b in books && OwnedBy(b, uid)
  {
    Filter(books, b => OwnedBy(b, uid))
  }

  /**
   * `getUserBooks`: the caller's books, ten per page. Its `totalBooks` (and
   * so `totalPages`) counts every book in the store, not only the caller's.
   */
  function GetUserBooks(books: seq<Book>, uid: UserId, page: Param): (r: Reply<Listing>)
    ensures r.Ok? <==> OrDefault(page, 1) >= 1
    ensures r.Ok? ==> Some(r.data.books) == FindWindow(UserBooks(books, uid), SkipCount(OrDefault(page, 1), 10), 10)
    ensures r.Ok? ==> |r.data.books| <= 10 && forall b :: b in r.data.books ==> b in books && OwnedBy(b, uid)
    ensures r.Ok? ==> r.data.totalBooks == |books| && r.data.totalPages == TotalPages(|books|, 10)
    ensures r.Ok? ==> r.data.currentPage == OrDefault(page, 1)
    ensures r.Ok? ==> r.data.echoedLimit.None?
  {
    Paged(UserBooks(books, uid), |books|, OrDefault(page, 1), 10)
  }

  /** The search matcher: title, author or genre name contains the query, ignoring ASCII case. */
  predicate SearchMatch(b: Book, query: string) {
    ContainsIgnoringCase(b.title, query) || ContainsIgnoringCase(b.author, query)
    || ContainsIgnoringCase(GenreName(b.genre), query)
  }

  /** The books matching the query, in collection order. */
  function SearchResults(books: seq<Book>, query: string): (r: seq<Book>)
    ensures forall b :: b in r <==> b in books && SearchMatch(b, query)
  {
    Filter(books, b => SearchMatch(b, query))
  }

  /**
   * `searchBooks`: a missing or empty query gives 400; otherwise the
   * matching books in collection order, eight per page.
   */
  function SearchBooks(books: seq<Book>, query: Option<string>, page: Param): (r: Reply<Listing>)
    ensures query.None? || query.value == "" ==> r == Fail(400)
    ensures r.Ok? ==> Some(r.data.books) == FindWindow(SearchResults(books, query.value), SkipCount(OrDefault(page, 1), 8), 8)
    ensures r.Ok? ==> |r.data.books| <= 8
    ensures r.Ok? ==> forall b :: b in r.data.books ==> b in books && SearchMatch(b, query.value)
    ensures r.Ok? ==> r.data.totalBooks == |SearchResults(books, query.value)|
    ensures r.Ok? ==> r.data.currentPage == OrDefault(page, 1) && r.data.totalPages == TotalPages(r.data.totalBooks, 8)
    ensures r.Ok? ==> r.data.echoedLimit.None?
    ensures query.Some? && query.value != "" ==> (r.Ok? <==> OrDefault(page, 1) >= 1)
  {
    if query.None? || query.value == "" then Fail(400)
    else
      var found := SearchResults(books, query.value);
      Paged(found, |found|, OrDefault(page, 1), 8)
  }

  /** A query that matches no book yields an empty first page with total 0. */
  lemma SearchNothingFound(books: seq<Book>, query: string)
    requires query != ""
    requires forall b :: b in books ==> !SearchMatch(b, query)
    ensures SearchBooks(books, Some(query), Absent) == Ok(Listing([], 0, 1, Some(0), None))
  {
    FilterNone(books, b => SearchMatch(b, query));
    assert SearchResults(books, query) == [];
  }

  /** Viewed within the last 30 days. */
  predicate ViewedSince(b: Book, now: Timestamp) {
    b.lastViewed >= now - THIRTY_DAYS_MS
  }

  function TrendingKey(b: Book): Key {
    Key(b.views, b.rating)
  }

  /** The trending order: books viewed in the last 30 days, most views first, then highest rating. */
  function Trending(books: seq<Book>, now: Timestamp): (r: seq<Book>)
    ensures forall b :: b in r <==> b in books && ViewedSince(b, now)
    ensures SortedDesc(r, TrendingKey)
  {
    SortDesc(Filter(books, b => ViewedSince(b, now)), TrendingKey)
  }

  /**
   * `getTrendingBooks`: a page of the trending order. Here `parseInt(x) || d`
   * also turns a page or limit of 0 into the default 1 or 10.
   */
  function GetTrendingBooks(books: seq<Book>, now: Timestamp, page: Param, limit: Param): (r: Reply<Listing>)
    ensures var l := OrDefaultNonZero(limit, 10);
      r.Ok? ==> Some(r.data.books) == FindWindow(Trending(books, now), SkipCount(OrDefaultNonZero(page, 1), l), l)
    ensures r.Ok? <==> SkipCount(OrDefaultNonZero(page, 1), OrDefaultNonZero(limit, 10)) >= 0
    ensures r.Ok? ==> |r.data.books| <= Abs(OrDefaultNonZero(limit, 10))
    ensures r.Ok? ==> forall b :: b in r.data.books ==> b in books && ViewedSince(b, now)
    ensures r.Ok? ==> SortedDesc(r.data.books, TrendingKey)
    ensures r.Ok? ==> r.data.totalBooks == |Trending(books, now)|
    ensures r.Ok? ==> r.data.currentPage == OrDefaultNonZero(page, 1)
    ensures r.Ok? ==> r.data.echoedLimit.None?
    ensures r.Ok? ==> r.data.totalPages == TotalPages(r.data.totalBooks, OrDefaultNonZero(limit, 10))
  {
    var ordered := Trending(books, now);
    var p := OrDefaultNonZero(page, 1);
    var l := OrDefaultNonZero(limit, 10);
    var r := Paged(ordered, |ordered|, p, l);
    if r.Ok? then PagedSorted(ordered, |ordered|, p, l, TrendingKey); r else r
  }

  /** `mongoose.Types.ObjectId.isValid(id)` decided: a well-formed id, or not. */
  datatype IdParam = WellFormed(id: BookId) | Malformed

  /** `findById` over the collection. */
  function FindBook(books: seq<Book>, id: BookId): (r: Option<Book>)
    ensures r.Some? ==> r.value in books && r.value.id == id
    ensures r.None? ==> forall b :: b in books ==> b.id != id
  {
    if books == [] then None
    else if books[0].id == id then Some(books[0])
    else FindBook(books[1..], id)
  }

  function RatingKey(b: Book): Key {
    Key(b.rating, 0)
  }

  /** Another book of the same genre. */
  predicate RelatedTo(b: Book, book: Book) {
    b.id != book.id && b.genre == book.genre
  }

  /** The other books of the genre, highest rating first. */
  function Related(books: seq<Book>, book: Book): (r: seq<Book>)
    ensures forall b :: b in r <==> b in books && RelatedTo(b, book)
    ensures SortedDesc(r, RatingKey)
  {
    SortDesc(Filter(books, b => RelatedTo(b, book)), RatingKey)
  }

  /**
   * `getRelatedBooks`: 400 for a malformed id, 404 for an unknown one;
   * otherwise the other books of the same genre, highest rating first, at
   * most six.
   */
  function GetRelatedBooks(books: seq<Book>, id: IdParam): (r: Reply<seq<Book>>)
    ensures id.Malformed? ==> r == Fail(400)
    ensures id.WellFormed? && FindBook(books, id.id).None? ==> r == Fail(404)
    ensures id.WellFormed? && FindBook(books, id.id).Some? ==>
      var book := FindBook(books, id.id).value;
      && r.Ok?
      && r.data == Related(books, book)[..Min(6, |Related(books, book)|)]
      && SortedDesc(r.data, RatingKey)
      && forall b :: b in r.data ==> b in books && RelatedTo(b, book)
  {
    match id
    case Malformed => Fail(400)
    case WellFormed(i) =>
      match FindBook(books, i)
      case None => Fail(404)
      case Some(book) =>
        var ordered := Related(books, book);
        var top := ordered[..Min(6, |ordered|)];
        assert forall b :: b in top ==> b in ordered;
        Ok(top)
  }

  /**
   * The related books shown are the best rated: a related book left out
   * has a rating no higher than any shown.
   */
  lemma RelatedTopSix(books: seq<Book>, book: Book, b: Book)
    requires b in books && RelatedTo(b, book)
    requires b !in Related(books, book)[..Min(6, |Related(books, book)|)]
    ensures forall s :: s in Related(books, book)[..Min(6, |Related(books, book)|)] ==> s.rating >= b.rating
  {
    var ordered := Related(books, book);
    var top := ordered[..Min(6, |ordered|)];
    var j :| 0 <= j < |ordered| && ordered[j] == b;
    forall s | s in top ensures s.rating >= b.rating {
      var i :| 0 <= i < |top| && top[i] == s;
      assert AtLeast(RatingKey(ordered[i]), RatingKey(ordered[j]));
    }
  }

  /** Copies sold: `quantity - inStock`. */
  function SoldQuantity(b: Book): int {
    b.quantity - b.inStock
  }

  function BestSellingKey(b: Book): Key {
    Key(SoldQuantity(b), b.rating)
  }

  /** The best-selling ranking: every book, most copies sold first, then highest rating. */
  function BestSelling(books: seq<Book>): (r: seq<Book>)
    ensures SortedDesc(r, BestSellingKey)
    ensures multiset(r) == multiset(books)
  {
    SortDesc(books, BestSellingKey)
  }

  /**
   * `getBestSellingBooks`: every book, most copies sold first, then highest
   * rating; the aggregation refuses a negative skip or a limit that is not
   * positive (500). The reply echoes the limit.
   */
  function GetBestSellingBooks(books: seq<Book>, page: Param, limit: Param): (r: Reply<Listing>)
    ensures var p := OrDefault(page, 1); var l := OrDefault(limit, 10);
      r.Ok? <==> SkipCount(p, l) >= 0 && l > 0
    ensures var l := OrDefault(limit, 10);
      r.Ok? ==> Some(r.data.books) == FindWindow(BestSelling(books), SkipCount(OrDefault(page, 1), l), l)
    ensures r.Ok? ==> SortedDesc(r.data.books, BestSellingKey) && |r.data.books| <= OrDefault(limit, 10)
    ensures r.Ok? ==> r.data.totalBooks == |books| && forall b :: b in r.data.books ==> b in books
    ensures r.Ok? ==> r.data.currentPage == OrDefault(page, 1) && r.data.echoedLimit == Some(OrDefault(limit, 10))
    ensures r.Ok? ==> r.data.totalPages == TotalPages(|books|, OrDefault(limit, 10))
  {
    var p := OrDefault(page, 1);
    var l := OrDefault(limit, 10);
    var ordered := BestSelling(books);
    match AggregateWindow(ordered, SkipCount(p, l), l)
    case None => Fail(500)
    case Some(w) =>
      PagedSorted(ordered, |books|, p, l, BestSellingKey);
      Ok(Listing(w, |books|, p, TotalPages(|books|, l), Some(l)))
  }

  /** Sold within the last 30 days (the handler's `sevenDaysAgo` is 30 days back). */
  predicate SoldSince(b: Book, now: Timestamp) {
    b.lastSoldAt.Some? && b.lastSoldAt.value >= now - THIRTY_DAYS_MS
  }

  function SoldAtKey(b: Book): Key {
    Key(if b.lastSoldAt.Some? then b.lastSoldAt.value else 0, 0)
  }

  /** The books sold in the last 30 days, most recent sale first. */
  function RecentlySold(books: seq<Book>, now: Timestamp): (r: seq<Book>)
    ensures forall b :: b in r <==> b in books && SoldSince(b, now)
    ensures SortedDesc(r, SoldAtKey)
  {
    SortDesc(Filter(books, b => SoldSince(b, now)), SoldAtKey)
  }

  /** `getRecentlySoldBooks`: a page of the recently-sold order; the reply echoes the limit. */
  function GetRecentlySoldBooks(books: seq<Book>, now: Timestamp, page: Param, limit: Param): (r: Reply<Listing>)
    ensures var l := OrDefault(limit, 10);
      r.Ok? ==> Some(r.data.books) == FindWindow(RecentlySold(books, now), SkipCount(OrDefault(page, 1), l), l)
    ensures r.Ok? <==> SkipCount(OrDefault(page, 1), OrDefault(limit, 10)) >= 0
    ensures r.Ok? && OrDefault(limit, 10) != 0 ==> |r.data.books| <= Abs(OrDefault(limit, 10))
    ensures r.Ok? ==> forall b :: b in r.data.books ==> b in books && SoldSince(b, now)
    ensures r.Ok? ==> SortedDesc(r.data.books, SoldAtKey)
    ensures r.Ok? ==> r.data.totalBooks == |RecentlySold(books, now)|
    ensures r.Ok? ==> r.data.currentPage == OrDefault(page, 1) && r.data.echoedLimit == Some(OrDefault(limit, 10))
    ensures r.Ok? ==> r.data.totalPages == TotalPages(r.data.totalBooks, OrDefault(limit, 10))
  {
    var ordered := RecentlySold(books, now);
    var p := OrDefault(page, 1);
    var l := OrDefault(limit, 10);
    var r := Paged(ordered, |ordered|, p, l);
    if r.Ok? then PagedSorted(ordered, |ordered|, p, l, SoldAtKey); Ok(r.data.(echoedLimit := Some(l))) else r
  }

  /** The `{ genre }` filter: the stored genre name equals the query string exactly. */
  predicate InGenre(b: Book, g: string) {
    GenreName(b.genre) == g
  }

  /** The books of genre `g`, in collection order. */
  function GenreBooks(books: seq<Book>, g: string): (r: seq<Book>)
    ensures forall b :: b in r <==> b in books && InGenre(b, g)
  {
    Filter(books, b => InGenre(b, g))
  }

  /**
   * `getBooksByGenre`: a missing or empty genre gives 400; otherwise the
   * books whose genre is exactly the given name, in collection order.
   */
  function GetBooksByGenre(books: seq<Book>, genre: Option<string>, page: Param, limit: Param): (r: Reply<Listing>)
    ensures genre.None? || genre.value == "" ==> r == Fail(400)
    ensures var l := OrDefault(limit, 10);
      r.Ok? ==> Some(r.data.books) == FindWindow(GenreBooks(books, genre.value), SkipCount(OrDefault(page, 1), l), l)
    ensures r.Ok? && OrDefault(limit, 10) != 0 ==> |r.data.books| <= Abs(OrDefault(limit, 10))
    ensures r.Ok? ==> forall b :: b in r.data.books ==> b in books && InGenre(b, genre.value)
    ensures r.Ok? ==> r.data.totalBooks == |GenreBooks(books, genre.value)|
    ensures r.Ok? ==> r.data.currentPage == OrDefault(page, 1) && r.data.totalPages == TotalPages(r.data.totalBooks, OrDefault(limit, 10))
    ensures r.Ok? ==> r.data.echoedLimit.None?
    ensures genre.Some? && genre.value != "" ==> (r.Ok? <==> SkipCount(OrDefault(page, 1), OrDefault(limit, 10)) >= 0)
  {
    if genre.None? || genre.value == "" then Fail(400)
    else
      var matching := GenreBooks(books, genre.value);
      Paged(matching, |matching|, OrDefault(page, 1), OrDefault(limit, 10))
  }

  /** A genre name outside the ten lists nothing. */
  lemma UnknownGenreEmpty(books: seq<Book>, g: string)
    requires g !in BookModel.BookValidation.GENRE_NAMES
    ensures GenreBooks(books, g) == []
  {
    forall b | b in books ensures !InGenre(b, g) {
      GenreRoundTrip(b.genre);
    }
    FilterNone(books, b => InGenre(b, g));
  }
}

/** The Book document: its genre enumeration, field constraints and creation defaults. */
module BookModel {
  import opened Common
  import opened Text
  import opened Joi
  import BookValidation

  datatype Genre =
    | Fiction | NonFiction | ScienceFiction | Mystery | Romance
    | Thriller | Biography | History | SelfHelp | OtherGenre

  function GenreName(g: Genre): string {
    match g
    case Fiction => "Fiction"
    case NonFiction => "Non-fiction"
    case ScienceFiction => "Science Fiction"
    case Mystery => "Mystery"
    case Romance => "Romance"
    case Thriller => "Thriller"
    case Biography => "Biography"
    case History => "History"
    case SelfHelp => "Self-help"
    case OtherGenre => "Other"
  }

  /** The schema's `enum` check: a string is a genre exactly when it is one of the names the validator lists. */
  function ParseGenre(s: string): (r: Option<Genre>)
    ensures r.Some? <==> s in BookValidation.GENRE_NAMES
    ensures r.Some? ==> GenreName(r.value) == s
  {
    if s == "Fiction" then Some(Fiction)
    else if s == "Non-fiction" then Some(NonFiction)
    else if s == "Science Fiction" then Some(ScienceFiction)
    else if s == "Mystery" then Some(Mystery)
    else if s == "Romance" then Some(Romance)
    else if s == "Thriller" then Some(Thriller)
    else if s == "Biography" then Some(Biography)
    else if s == "History" then Some(History)
    else if s == "Self-help" then Some(SelfHelp)
    else if s == "Other" then Some(OtherGenre)
    else None
  }

  lemma GenreRoundTrip(g: Genre)
    ensures ParseGenre(GenreName(g)) == Some(g)
  {
  }

  /**
   * A stored book. `id` is its ObjectId, `owner` the user who listed it.
   * `quantity` and `inStock` are two separate stock counters.
   */
  datatype Book = Book(
    id: BookId,
    owner: UserId,
    title: string,
    coverImage: string,
    author: string,
    description: Option<string>,
    publicationDate: Timestamp,
    genre: Genre,
    publisher: Option<string>,
    inStock: int,
    rating: int,
    price: real,
    quantity: int,
    views: int,
    lastViewed: Timestamp,
    lastSoldAt: Option<Timestamp>)

  predicate Trimmed(s: string) {
    Trim(s) == s
  }

  predicate OptionTrimmed(s: Option<string>) {
    s.Some? ==> Trimmed(s.value)
  }

  /**
   * What the schema's validators enforce on save: the required strings are
   * non-empty once their `trim` setter has run, and the four numbers have
   * `min: 0`.
   */
  predicate BookSchemaOk(b: Book) {
    && b.title != "" && b.coverImage != "" && b.author != ""
    && Trimmed(b.title) && Trimmed(b.coverImage) && Trimmed(b.author)
    && OptionTrimmed(b.description) && OptionTrimmed(b.publisher)
    && b.inStock >= 0 && b.rating >= 0 && b.price >= 0.0 && b.quantity >= 0
  }

  function OptionalTrimmed(body: Body, key: string): (r: Option<string>)
    requires key in body ==> body[key].JStr?
    ensures r.Some? <==> key in body
    ensures OptionTrimmed(r)
  {
    if key in body then TrimIdempotent(body[key].s); Some(Trim(body[key].s)) else None
  }

  /**
   * `BookModel.create({...})` with the fields `createBook` copies from an
   * accepted body: the string setters trim, `views` takes its default 0 (the
   * body's `views`, `lastViewed` and `lastSoldAt` are not copied),
   * `lastViewed` is the creation time and `lastSoldAt` is null.
   */
  function NewBook(id: BookId, owner: UserId, body: Body, fmt: Formats, now: Timestamp): (b: Book)
    requires BookValidation.BookBodyValid(body, fmt)
    ensures b.id == id && b.owner == owner
    ensures b.views == 0 && b.lastViewed == now && b.lastSoldAt == None
    ensures b.inStock as real == body["inStock"].n && b.quantity as real == body["quantity"].n
    ensures b.rating as real == body["rating"].n && b.price == body["price"].n
    ensures GenreName(b.genre) == body["genre"].s
  {
    Book(
      id, owner,
      Trim(body["title"].s), Trim(body["coverImage"].s), Trim(body["author"].s),
      OptionalTrimmed(body, "description"),
      fmt.instant(body["publicationDate"].s),
      ParseGenre(body["genre"].s).value,
      OptionalTrimmed(body, "publisher"),
      IntegerValue(body["inStock"]), IntegerValue(body["rating"]), body["price"].n,
      IntegerValue(body["quantity"]),
      0, now, None)
  }

  /**
   * The schema refuses the new book exactly when its title, cover image or
   * author is blank once trimmed; every other constraint already holds.
   */
  lemma NewBookSchemaOk(id: BookId, owner: UserId, body: Body, fmt: Formats, now: Timestamp)
    requires BookValidation.BookBodyValid(body, fmt)
    ensures BookSchemaOk(NewBook(id, owner, body, fmt, now)) <==>
      Trim(body["title"].s) != "" && Trim(body["coverImage"].s) != "" && Trim(body["author"].s) != ""
  {
    TrimIdempotent(body["title"].s);
    TrimIdempotent(body["coverImage"].s);
    TrimIdempotent(body["author"].s);
  }

  /**
   * A title of blanks passes the request validator (which does not trim)
   * and is then refused by the schema, whose setter trims it to "".
   */
  lemma BlankTitleRefusedOnSave(id: BookId, owner: UserId, body: Body, fmt: Formats, now: Timestamp)
    requires BookValidation.BookBodyValid(body, fmt)
    requires forall i :: 0 <= i < |body["title"].s| ==> IsWhitespace(body["title"].s[i])
    ensures !BookSchemaOk(NewBook(id, owner, body, fmt, now))
  {
    NewBookSchemaOk(id, owner, body, fmt, now);
    TrimAllWhitespace(body["title"].s);
  }
}

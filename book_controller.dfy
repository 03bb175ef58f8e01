/**
 * The book handlers that write to the store: the view counter of
 * `getBookById` and the owner's book list kept by `createBook` and
 * `deleteBook`. The read-only listings are in module Catalogue.
 */
module BookController {
  import opened Common
  import opened Joi
  import opened BookValidation
  import opened BookModel
  import opened UserModel
  import opened Database
  import opened Catalogue

  /**
   * `getBookById`: 400 for a malformed id, 404 for an unknown one; otherwise
   * `$inc: { views: 1 }` and `lastViewed` set to now, and the updated book
   * is returned.
   */
  method GetBookById(db: Db, id: IdParam, now: Timestamp) returns (r: Reply<Book>)
    requires db.Valid()
    modifies db
    ensures db.Valid()
    ensures id.Malformed? ==> r == Fail(400) && unchanged(db)
    ensures id.WellFormed? && id.id !in old(db.books) ==> r == Fail(404) && unchanged(db)
    ensures id.WellFormed? && id.id in old(db.books) ==>
      var before := old(db.books[id.id]);
      && r.Ok?
      && r.data == before.(views := before.views + 1, lastViewed := now)
      && db.books == old(db.books)[id.id := r.data]
      && db.carts == old(db.carts) && db.orders == old(db.orders)
      && db.users == old(db.users) && db.nextId == old(db.nextId)
  {
    if id.Malformed? {
      return Fail(400);
    }
    if id.id !in db.books {
      return Fail(404);
    }
    var book := db.books[id.id];
    book := book.(views := book.views + 1, lastViewed := now);
    db.books := db.books[id.id := book];
    r := Ok(book);
  }

  /**
   * `createBook`: 400 when the body fails the validator; 500 when the
   * schema refuses the document `BookModel.create` builds; otherwise the
   * book is stored under a fresh id and that id is pushed (without a
   * duplicate check) onto the caller's `books` list.
   */
  method CreateBook(db: Db, uid: UserId, body: Body, fmt: Formats, now: Timestamp) returns (r: Reply<Book>)
    requires db.Valid() && uid in db.users
    modifies db
    ensures db.Valid()
    ensures !BookBodyValid(body, fmt) ==> r == Fail(400) && unchanged(db)
    ensures BookBodyValid(body, fmt) && !BookSchemaOk(NewBook(old(db.nextId), uid, body, fmt, now)) ==>
      r == Fail(500) && unchanged(db)
    ensures BookBodyValid(body, fmt) && BookSchemaOk(NewBook(old(db.nextId), uid, body, fmt, now)) ==>
      var id := old(db.nextId);
      && id !in old(db.books)
      && r == Ok(NewBook(id, uid, body, fmt, now))
      && db.books == old(db.books)[id := r.data]
      && db.users == old(db.users)[uid := old(db.users[uid]).(books := old(db.users[uid].books) + [id])]
      && db.carts == old(db.carts) && db.orders == old(db.orders)
      && db.nextId == id + 1
  {
    if !BookBodyValid(body, fmt) {
      return Fail(400);
    }
    var id := db.nextId;
    var book := NewBook(id, uid, body, fmt, now);
    if !BookSchemaOk(book) {
      return Fail(500);
    }
    StoreNewBook(db, uid, book);
    r := Ok(book);
  }

  /** The writes of a successful `createBook`: the book under the fresh id, the id pushed onto the owner's list. */
  method StoreNewBook(db: Db, uid: UserId, book: Book)
    requires db.Valid() && uid in db.users && book.id == db.nextId
    modifies db
    ensures db.Valid()
    ensures book.id !in old(db.books)
    ensures db.books == old(db.books)[book.id := book]
    ensures db.users == old(db.users)[uid := old(db.users[uid]).(books := old(db.users[uid].books) + [book.id])]
    ensures db.carts == old(db.carts) && db.orders == old(db.orders)
    ensures db.nextId == book.id + 1
  {
    var id := db.nextId;
    Grow(db.books, db.carts, db.orders, id, id + 1);
    db.books := db.books[id := book];
    db.nextId := id + 1;
    var user := db.users[uid];
    UsersOkListUpdate(db.users, uid, user.(books := user.books + [id]));
    db.users := db.users[uid := user.(books := user.books + [id])];
  }

  /**
   * `deleteBook`: `findOneAndDelete({ _id, user })` finds only a book the
   * caller owns, so a missing book and someone else's book both give 404;
   * otherwise the book is removed and `$pull` drops its id from the
   * caller's `books` list. Carts and orders that mention it are untouched.
   */
  method DeleteBook(db: Db, uid: UserId, bookId: BookId) returns (r: Reply<()>)
    requires db.Valid() && uid in db.users
    modifies db
    ensures db.Valid()
    ensures bookId !in old(db.books) || old(db.books[bookId].owner) != uid ==> r == Fail(404) && unchanged(db)
    ensures bookId in old(db.books) && old(db.books[bookId].owner) == uid ==>
      && r == Ok(())
      && db.books == old(db.books) - {bookId}
      && db.users == old(db.users)[uid := old(db.users[uid]).(books := PullAll(old(db.users[uid].books), bookId))]
      && db.carts == old(db.carts) && db.orders == old(db.orders) && db.nextId == old(db.nextId)
  {
    if bookId !in db.books || db.books[bookId].owner != uid {
      return Fail(404);
    }
    db.books := db.books - {bookId};
    var user := db.users[uid];
    UsersOkListUpdate(db.users, uid, user.(books := PullAll(user.books, bookId)));
    db.users := db.users[uid := user.(books := PullAll(user.books, bookId))];
    r := Ok(());
  }

  /**
   * Deleting a book just created gives the owner back the list it had,
   * provided the list did not already hold the id.
   */
  lemma {:induction false} PullAfterPush(xs: seq<BookId>, id: BookId)
    requires id !in xs
    ensures PullAll(xs + [id], id) == xs
  {
    if xs == [] {
      assert [id][1..] == [];
    } else {
      assert (xs + [id])[1..] == xs[1..] + [id];
      PullAfterPush(xs[1..], id);
    }
  }
}

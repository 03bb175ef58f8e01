/**
 * The document store the controllers read and write, replaced by in-memory
 * maps. A successful `save()` is a map update.
 */
module Database {
  import opened Common
  import opened BookModel
  import opened CartModel
  import opened OrderInterface
  import opened UserModel

  class Db {
    var books: map<BookId, Book>
    /** Carts are looked up by owner (`Cart.findOne({ user })`). */
    var carts: map<UserId, Cart>
    var orders: map<OrderId, Order>
    var users: map<UserId, User>
    /** The next ObjectId to hand out; every id in use is below it. */
    var nextId: Id

    /**
     * The store's invariant: documents sit under their own id, ids in use
     * are below `nextId`, every stored cart passed the cart schema and holds
     * at most one line per book, and the user indexes are unique.
     */
    ghost predicate Valid()
      reads this
    {
      && BooksOk(books, nextId)
      && CartsOk(carts, nextId)
      && OrdersOk(orders, nextId)
      && UsersOk(users)
    }

    /** A store holding only registered users. */
    constructor (registered: map<UserId, User>)
      requires forall u :: u in registered ==> registered[u].id == u
      requires UniqueAcrossUsers(registered)
      ensures Valid()
      ensures books == map[] && carts == map[] && orders == map[] && users == registered
    {
      books, carts, orders, users := map[], map[], map[], registered;
      nextId := 0;
    }
  }

  ghost predicate BooksOk(books: map<BookId, Book>, nextId: Id) {
    forall b :: b in books ==> books[b].id == b && b < nextId
  }

  /** A cart as the store may hold it for user `u`. */
  ghost predicate CartOk(u: UserId, c: Cart, nextId: Id) {
    c.user == u && c.id < nextId && CartSchemaOk(c) && DistinctBooks(c.items)
  }

  ghost predicate CartsOk(carts: map<UserId, Cart>, nextId: Id) {
    forall u :: u in carts ==> CartOk(u, carts[u], nextId)
  }

  ghost predicate OrdersOk(orders: map<OrderId, Order>, nextId: Id) {
    forall o :: o in orders ==> orders[o].id == o && o < nextId
  }

  ghost predicate UsersOk(users: map<UserId, User>) {
    (forall u :: u in users ==> users[u].id == u) && UniqueAcrossUsers(users)
  }

  /** Changing book fields other than the id, or dropping books, keeps the books part of the invariant. */
  lemma BooksOkFrame(books: map<BookId, Book>, books': map<BookId, Book>, nextId: Id)
    requires BooksOk(books, nextId)
    requires books'.Keys <= books.Keys
    requires forall k :: k in books' ==> books'[k].id == books[k].id
    ensures BooksOk(books', nextId)
  {
  }

  lemma CartsOkUpdate(carts: map<UserId, Cart>, nextId: Id, u: UserId, c: Cart)
    requires CartsOk(carts, nextId) && CartOk(u, c, nextId)
    ensures CartsOk(carts[u := c], nextId)
  {
  }

  /** Handing out a fresh id keeps every part of the invariant. */
  lemma Grow(books: map<BookId, Book>, carts: map<UserId, Cart>, orders: map<OrderId, Order>, n: Id, n': Id)
    requires n <= n'
    requires BooksOk(books, n) && CartsOk(carts, n) && OrdersOk(orders, n)
    ensures BooksOk(books, n') && CartsOk(carts, n') && OrdersOk(orders, n')
  {
  }

  /** Changing only a user's id lists keeps the users part of the invariant. */
  lemma UsersOkListUpdate(users: map<UserId, User>, uid: UserId, u: User)
    requires UsersOk(users) && uid in users
    requires u.id == uid
    requires u.username == users[uid].username && u.email == users[uid].email && u.password == users[uid].password
    ensures UsersOk(users[uid := u])
  {
    UniqueAfterListUpdate(users, uid, u);
  }
}

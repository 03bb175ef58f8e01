# Page-Keeper bookstore: a verified model of the bookkeeping core

Page-Keeper is an online bookstore with an Express/Mongoose backend and a
React frontend. Underneath its store calls sits a small sequential
bookkeeping core, and that core is what this project models and proves
things about:

- **Carts.** Each user has one cart: a list of (book, quantity, price) lines
  and a cached `totalAmount`. Adding merges into the book's line or appends
  one. Updating overwrites one line. Removing and clearing drop lines and
  credit the book's `quantity` counter.
- **Checkout and cancellation.** A checkout validates the requested subset
  of the cart all-or-nothing. A sequential loop then decrements `inStock`
  with no rollback. A pending order is created and the matched cart lines
  shrink. An order may be cancelled only while pending or processing, and
  cancelling credits the stock back.
- **Catalogue.** Paged listings of all books, of the caller's books, of a
  search, of a genre, and the trending, best-selling, related and
  recently-sold selections. The book handlers also keep the view counter
  and the owner's book list.
- **Validators and schemas.** These are the Joi request validators (address
  with ZIP pattern, cart quantity, book, register, login) and the
  constraints the Mongoose schemas enforce on save.
- **Cart page selection.** The frontend toggles cart lines into a selection
  and sends a non-empty selection to the order page.

The document store is replaced by class `Database.Db`. It holds maps of
books, carts (keyed by owner), orders and users, plus the next free id.
Every handler is a method that `modifies` the store. Each one states the
reply (`Reply.Ok(data)` or `Reply.Fail(status)` with the HTTP status) and
the whole new state. It also keeps the store's invariant `Valid()`: ids
match keys, ids in use are below the next id, stored carts pass the line
schema with one line per book, and the user indexes are unique. Each
handler's result is given by pure functions: `StockUpdate`, `Credited`,
`ValidOrderedItems`, `ShrinkCart`, `AddLine`, `SetLine` and
`WithoutBook`. Lemmas then prove what the source promises about those
functions. The two loops of `order.utils.ts` stay loops, with invariants
that tie them to `StockUpdate` and `Credited`. The listings are pure
functions over the collection as a sequence in its natural order, with
the current time `now` as a parameter.

An order line carries its cart line's whole price. Checking out 2 of a
3-copy cart line priced 30 gives an order line priced 30 and leaves the
cart line, now of 1 copy, at price 30 (`OrderController.CheckoutExample`).

Members used only to define or prove others (for example
`Catalogue.Insert`, `Common.Books`, `Text.TrimStart`, `Text.TrimEnd`,
`OrderUtils.CreditedStep`, `Pagination.MulMonotone`) have no row of their
own in the table below.

## Model

| member | source | states |
|---|---|---|
| Common.FindLine | backend/src/controller/cart.controller.ts:43-45 | the index found holds the first line for the book; no index exactly when no line has the book |
| Common.AppendIfAbsent | backend/src/controller/cart.controller.ts:58-60 | the id is in the result; a list already holding it is unchanged, otherwise the id is appended |
| Common.PullAll | backend/src/controller/book.controller.ts:219-221 | `$pull` leaves no occurrence of the id and keeps every other id |
| Common.PullAllAbsent | backend/src/controller/book.controller.ts:219-221 | pulling an id the list lacks changes nothing |
| Common.WithoutBook | backend/src/controller/cart.controller.ts:91 | the filter keeps exactly the lines of other books; the list shrinks iff it had a line for the book |
| Common.WithoutBookDistinct | backend/src/controller/cart.controller.ts:91 | filtering keeps at most one line per book |
| Text.Trim | backend/src/validation/order.validation.ts:4-11 | `.trim()` yields a string that neither starts nor ends with whitespace and is no longer than the input |
| Text.TrimOfTrimmed | backend/src/validation/order.validation.ts:7-10 | a string without surrounding whitespace is its own trim |
| Text.TrimIdempotent | backend/src/models/Book.ts:6-20 | trimming twice is trimming once |
| Text.TrimPadded | backend/src/validation/order.validation.ts:4-11 | `.trim()` cuts exactly the whitespace put around a string whose own ends are not whitespace |
| Text.TrimAllWhitespace | backend/src/validation/order.validation.ts:4-6 | a string of whitespace only trims to the empty string |
| Text.Lower | backend/src/controller/book.controller.ts:184-186 | the `i` flag folds exactly the ASCII capitals onto the lower-case letters |
| Text.ContainsIgnoringCaseMeans | backend/src/controller/book.controller.ts:182-188 | the case-insensitive search succeeds iff the query occurs at some position of the field |
| Joi.IntegerValue | backend/src/validation/cart.validation.ts:4 | an integral JSON number read as the integer of the same value |
| Joi.IntegerRuleValue | backend/src/validation/book.validation.ts:24 | a value accepted by `integer().min(0)` is a natural number |
| Joi.TrimmedBlankRejected | backend/src/validation/order.validation.ts:4-6 | a trimmed required string made of blanks is rejected |
| OrderValidation.ZipShape | backend/src/validation/order.validation.ts:7-10 | an accepted ZIP has 5 or 10 characters after trimming, all digits except the sixth |
| OrderValidation.ZipRuleOfTrimmed | backend/src/validation/order.validation.ts:7-10 | for an untrimmable string the ZIP rule is exactly the pattern `^\d{5}(-\d{4})?$` |
| OrderValidation.ZipAccepted | backend/src/validation/order.validation.ts:9 | "12345" passes |
| OrderValidation.ZipPlusFourAccepted | backend/src/validation/order.validation.ts:9 | "12345-6789" passes |
| OrderValidation.ZipTrimmedFirst | backend/src/validation/order.validation.ts:8-9 | with any whitespace around it a ZIP code passes iff the bare code matches the pattern |
| OrderValidation.ZipRejected | backend/src/validation/order.validation.ts:9 | "1234" and "123456", of the wrong length, fail |
| OrderValidation.ZipBadSuffixRejected | backend/src/validation/order.validation.ts:9 | "12345-" and "12345-678", without four digits after the hyphen, fail |
| OrderValidation.ZipLetterRejected | backend/src/validation/order.validation.ts:9 | "1234a" fails |
| OrderValidation.UnknownKeyRejected | backend/src/validation/order.validation.ts:3 | a key other than the five listed rejects the address |
| OrderValidation.MissingKeyRejected | backend/src/validation/order.validation.ts:4-11 | each of the five fields is required |
| OrderValidation.BlankStreetRejected | backend/src/validation/order.validation.ts:4 | a street of blanks is rejected |
| CartValidation.RequestedQuantity | backend/src/validation/cart.validation.ts:4 | an accepted quantity is a whole number ≥ 0 |
| CartValidation.CartBodyExamples | backend/src/validation/cart.validation.ts:4 | 0 and 3 pass; -1, 1.5 and a missing quantity fail |
| CartValidation.ExtraKeyRejected | backend/src/validation/cart.validation.ts:3 | any key besides `quantity` rejects the body |
| BookValidation.AcceptedNumbers | backend/src/validation/book.validation.ts:24-28 | accepted stock, quantity, rating and views are natural numbers and the price is ≥ 0 |
| BookValidation.RatingUnbounded | backend/src/validation/book.validation.ts:27 | any natural rating up to the safe-integer limit is accepted |
| BookValidation.KeysEnforced | backend/src/validation/book.validation.ts:14-30 | a missing required key or any unlisted key rejects the body |
| BookValidation.OptionalFieldsMayBeNull | backend/src/validation/book.validation.ts:29-30 | a valid body stays valid with the two dates set to null |
| BookValidation.OptionalFieldsMayBeOmitted | backend/src/validation/book.validation.ts:18-30 | a valid body stays valid with every optional field left out |
| RegisterValidation.RegisterAccepted | backend/src/validation/register.validation.ts:4-7 | an accepted body has all four fields as strings of length ≥ 1 and an email the format accepts |
| RegisterValidation.RegisterKeysEnforced | backend/src/validation/register.validation.ts:3-7 | a missing field or an extra key rejects the body |
| LoginValidation.PasswordLength | backend/src/validation/login.validation.ts:5 | a 5-character password is rejected and a 6-character one accepted |
| LoginValidation.LoginKeysEnforced | backend/src/validation/login.validation.ts:3-5 | a missing field or an extra key rejects the body |
| BookModel.ParseGenre | backend/src/models/Book.ts:30-45 | a string is a genre iff it is one of the ten names the validator lists, and names it |
| BookModel.GenreRoundTrip | backend/src/models/Book.ts:30-45 | every genre's name parses back to that genre |
| BookModel.NewBook | backend/src/controller/book.controller.ts:39-52 | the created book belongs to the caller, copies the body's numbers and genre, and has views 0, lastViewed now and no lastSoldAt |
| BookModel.NewBookSchemaOk | backend/src/models/Book.ts:6-75 | the schema refuses the new book exactly when its trimmed title, cover image or author is empty |
| BookModel.BlankTitleRefusedOnSave | backend/src/models/Book.ts:6-10 | a blank title passes the validator but the schema refuses it after trimming |
| CartModel.NewCart | backend/src/controller/cart.controller.ts:35-41 | a new cart has no lines and total 0 and passes the schema |
| CartModel.ZeroLineRefused | backend/src/models/Cart.ts:10-14 | a cart with a line of quantity 0 cannot be saved |
| CartModel.WithoutBookLinesOk | backend/src/models/Cart.ts:10-14 | dropping the lines of one book keeps every line's quantity ≥ 1 |
| UserModel.NewUser | backend/src/models/User.ts:4-39 | a new user has role "customer", a trimmed username and empty id lists |
| UserModel.EmailShape | backend/src/models/User.ts:14 | an email the regex accepts has an '@', a '.' and at least five characters |
| UserModel.EmailExamples | backend/src/models/User.ts:14 | the unanchored regex accepts "a@b.c", "<a@b.c>\n" and "a@b@c.d" and refuses "a@b.", "@bc.d" and "a@.c" |
| UserModel.EmailLineBreak | backend/src/models/User.ts:14 | a line break between '@' and '.' defeats the regex |
| UserModel.NewUserSchemaOk | backend/src/models/User.ts:4-26 | a new user passes the schema iff the trimmed username and the password are non-empty and the email matches the regex |
| UserModel.UniqueAfterListUpdate | backend/src/models/User.ts:5-26 | changing only a user's id lists keeps username, email and password unique |
| OrderUtils.CalculateOrderTotal | backend/src/utils/order.utils.ts:17-19 | the empty list totals 0; non-negative prices give a non-negative total |
| OrderUtils.CalculateOrderTotalAppend | backend/src/utils/order.utils.ts:17-19 | the total of two lists joined is the sum of their totals |
| OrderUtils.CalculateOrderTotalUniform | backend/src/utils/order.utils.ts:17-19 | lines of equal price total that price times their number, whatever the quantities |
| OrderUtils.ValidateOrderItems | backend/src/utils/order.utils.ts:5-15 | true iff every line's book exists and its `quantity` (not `inStock`) covers the line |
| OrderUtils.StockUpdate | backend/src/utils/order.utils.ts:21-44 | the loop fails only with 404 or 400 and keeps the set of books |
| OrderUtils.StockUpdateFrame | backend/src/utils/order.utils.ts:35-41 | each book keeps every field but `inStock` and `lastSoldAt`, a changed `inStock` is never below 0, and `lastSoldAt` is kept or set to now |
| OrderUtils.StockUpdateNo404 | backend/src/utils/order.utils.ts:24-28 | when every line's book exists the loop never reports 404 |
| OrderUtils.StockUpdateAppend | backend/src/utils/order.utils.ts:24-43 | running two lists in turn is running their concatenation, and a failure ends the run |
| OrderUtils.NoRollback | backend/src/utils/order.utils.ts:24-43 | when line k is the first to fail, the decrements of the lines before k stay |
| OrderUtils.StockUpdateInStock | backend/src/utils/order.utils.ts:30-41 | on success each book's `inStock` drops by exactly the sum of its lines' quantities |
| OrderUtils.StockUpdateStamps | backend/src/utils/order.utils.ts:35-41 | on success every book with a line has `lastSoldAt` = now |
| OrderUtils.Credit | backend/src/utils/order.utils.ts:48-51 | crediting one line keeps the set of books, skipping a missing book |
| OrderUtils.CreditBook | backend/src/utils/order.utils.ts:48-51 | crediting one line adds its quantity to its book's `quantity` field and changes nothing else |
| OrderUtils.Credited | backend/src/utils/order.utils.ts:46-54 | crediting a list keeps the set of books |
| OrderUtils.CreditedBook | backend/src/utils/order.utils.ts:46-54 | each book gains the sum of its lines' quantities in `quantity` and nothing else changes |
| OrderUtils.RestoreBookStock | backend/src/utils/order.utils.ts:46-54 | the loop leaves the books `Credited` by the lines and touches nothing else |
| OrderUtils.UpdateBookStockAndTrackSales | backend/src/utils/order.utils.ts:21-44 | the loop leaves the books and reports the error that `StockUpdate` gives, and touches nothing else |
| CartController.LineQuantity | backend/src/controller/cart.controller.ts:43-48 | the quantity of the first line for the book, or 0 when no line has it |
| CartController.AddLine | backend/src/controller/cart.controller.ts:43-56 | the book's line is merged or appended with quantity old + requested and price unit × that quantity; other lines stay |
| CartController.AddLineDistinct | backend/src/controller/cart.controller.ts:43-56 | adding keeps at most one line per book |
| CartController.AddLineSchema | backend/src/controller/cart.controller.ts:51-55 | the result fails the line schema iff a new line of quantity 0 was appended |
| CartController.TotalAfterSet | backend/src/controller/cart.controller.ts:137-139 | overwriting one line moves the price total by the difference of the two prices |
| CartController.SetLine | backend/src/controller/cart.controller.ts:137-138 | only the target line changes: new quantity, price unit × quantity, same book |
| CartController.AddToCart | backend/src/controller/cart.controller.ts:10-67 | 400 with no change when the body, the book or its `quantity` fails; otherwise the found or new cart gets `AddLine`, total Σ price, its id on the user once; a 0 line fails the save with 500; books untouched |
| CartController.RemoveFromCart | backend/src/controller/cart.controller.ts:70-101 | 404 without a cart; otherwise the first line's quantity is credited to the book's `quantity`, every line of the book dropped, total Σ price |
| CartController.UpdateCart | backend/src/controller/cart.controller.ts:104-143 | 404 for a missing book, cart or line, 400 when `quantity` is short, 500 for a quantity below 1; otherwise `SetLine` and total Σ price |
| CartController.ClearCart | backend/src/controller/cart.controller.ts:156-177 | 404 without a cart; otherwise every line is credited to its book's `quantity` and the cart left empty with total 0 |
| CartController.IncreaseCheckNeverRejects | backend/src/controller/cart.controller.ts:114-132 | once the first stock check passed and the line holds ≥ 1, the increase check cannot fire |
| OrderController.OrderLine | backend/src/controller/order.controller.ts:40-63 | a request yields an order line iff the cart has a line for its book with enough copies |
| OrderController.Present | backend/src/controller/order.controller.ts:64 | `.filter(Boolean)` loses nothing iff every entry is present, and then keeps them in order |
| OrderController.ValidOrderedItems | backend/src/controller/order.controller.ts:39-71 | accepted iff every request is coverable; then line k has request k's book and quantity and its cart line's whole price |
| OrderController.AcceptedLinesExist | backend/src/controller/order.controller.ts:39-71 | every order line of an accepted request names an existing book |
| OrderController.CheckoutStockNever404 | backend/src/controller/order.controller.ts:89-90 | the stock loop of a checkout never reports a missing book |
| OrderController.CheckoutExample | backend/src/controller/order.controller.ts:39-115 | 2 of a 3-copy line priced 30 give an order line (2, 30), total 30, and a cart line (1, 30) |
| OrderController.CheckoutTotalsDisagree | backend/src/controller/order.controller.ts:74-115 | after a partial checkout the cart's Σ price × quantity (180) and Σ price (90) differ |
| OrderController.FirstRequest | backend/src/controller/order.controller.ts:95-98 | the match is the first request naming the book (no earlier request names it); none exactly when no request names it |
| OrderController.Shrunk | backend/src/controller/order.controller.ts:93-108 | a line that survives checkout keeps its book and its price |
| OrderController.ShrinkCart | backend/src/controller/order.controller.ts:93-109 | every kept line comes from a cart line, every line not dropped is kept, and quantities stay ≥ 1 |
| OrderController.ShrinkCartAppend | backend/src/controller/order.controller.ts:93-109 | shrinking is line by line in cart order: shrinking a concatenation is concatenating the shrunk parts, so surviving lines keep their order |
| OrderController.ShrinkCartDistinct | backend/src/controller/order.controller.ts:93-109 | shrinking keeps one line per book |
| OrderController.ShrinkCartBook | backend/src/controller/order.controller.ts:93-109 | an unrequested line stays; a requested one loses the first request's quantity with its price unchanged, or is gone at ≤ 0 |
| OrderController.ShrinkCartUnrequested | backend/src/controller/order.controller.ts:93-109 | a checkout naming none of the cart's books leaves its lines as they are |
| OrderController.CartValue | backend/src/controller/order.controller.ts:112-115 | the empty cart is worth 0; non-negative lines give a non-negative total |
| OrderController.AddressOf | backend/src/controller/order.controller.ts:80-87 | the order stores all five address fields exactly as sent, untrimmed; once trimmed the four text fields are non-empty and the ZIP matches the pattern |
| OrderController.CreateOrder | backend/src/controller/order.controller.ts:17-127 | 400 with no change for a bad address, no or empty cart, or an uncoverable request; a stock failure keeps earlier decrements and saves nothing else; success adds a pending order, shrinks the cart with total Σ price × quantity, and records the order once |
| OrderController.SaveCheckout | backend/src/controller/order.controller.ts:112-123 | the final saves: order under the fresh id, shrunk cart with total Σ price × quantity, order id on the user once |
| OrderController.RemoveOrder | backend/src/controller/order.controller.ts:211-241 | 404 unless the caller owns the order, 400 unless pending or processing; otherwise stock is credited and the order deleted |
| OrderController.UpdateOrderStatus | backend/src/controller/order.controller.ts:171-186 | 400 for a missing order; otherwise the status is overwritten with no transition check |
| OrderController.UpdatePaymentStatus | backend/src/controller/order.controller.ts:189-208 | 400 for a missing order; otherwise the payment status is overwritten |
| Pagination.FindWindow | backend/src/controller/book.controller.ts:65-67 | a negative skip is refused; otherwise the window is the run from `skip`, of length min(|limit|, rest), all of the rest for limit 0 |
| Pagination.AggregateWindow | backend/src/controller/book.controller.ts:317-322 | the pipeline refuses a negative skip or a limit ≤ 0, and otherwise equals `find().skip().limit()` |
| Pagination.TotalPages | backend/src/controller/book.controller.ts:75 | `Math.ceil(total / limit)`: null iff limit is 0, else the least page count covering the total |
| Pagination.CeilDiv | backend/src/controller/book.controller.ts:75 | ceiling division: (q-1)·b < a ≤ q·b |
| Pagination.PageOfItem | backend/src/controller/book.controller.ts:63-75 | with a positive limit, item i sits on page i / limit + 1, which is within `totalPages` |
| Pagination.PastLastPage | backend/src/controller/book.controller.ts:63-75 | a page beyond `totalPages` is empty |
| Catalogue.SortDesc | backend/src/controller/book.controller.ts:243 | the sort is a permutation of its input, ordered by the key descending |
| Catalogue.Filter | backend/src/controller/book.controller.ts:240-242 | the selection holds exactly the books satisfying the filter |
| Catalogue.FilterNone | backend/src/controller/book.controller.ts:240-242 | a filter no book satisfies selects nothing |
| Catalogue.Paged | backend/src/controller/book.controller.ts:65-75 | the page is refused iff skip < 0; otherwise it is the `skip`/`limit` window of the ordered list at skip (page − 1) × limit, with the total, the page echoed, the page count ceil(total / limit) and no echoed limit |
| Catalogue.PagedSorted | backend/src/controller/book.controller.ts:243-245 | a page of a sorted listing is sorted |
| Catalogue.PageRanked | backend/src/controller/book.controller.ts:243-245 | a page of a ranking is its slice: everything before it ranks at least as high as everything on it, and everything on it at least as high as everything after |
| Catalogue.GetAllBooks | backend/src/controller/book.controller.ts:62-81 | refused iff skip < 0; otherwise the page-th window of every book in collection order (defaults page 1, limit 10), counting every book, with the page echoed and ceil(total / limit) pages |
| Catalogue.UserBooks | backend/src/controller/book.controller.ts:93 | exactly the caller's books |
| Catalogue.GetUserBooks | backend/src/controller/book.controller.ts:84-110 | the page-th window of ten of the caller's books, while totalBooks counts every book in the store |
| Catalogue.SearchResults | backend/src/controller/book.controller.ts:182-188 | exactly the books whose title, author or genre contains the query |
| Catalogue.SearchBooks | backend/src/controller/book.controller.ts:173-207 | 400 without a query; otherwise the page-th window of eight matches, the count of all matches, the page echoed and ceil(count / 8) pages |
| Catalogue.SearchNothingFound | backend/src/controller/book.controller.ts:176-191 | a query matching nothing gives an empty first page, total 0 and 0 pages |
| Catalogue.Trending | backend/src/controller/book.controller.ts:236-245 | exactly the books viewed in the last 30 days, most views first, then highest rating |
| Catalogue.GetTrendingBooks | backend/src/controller/book.controller.ts:227-260 | the page-th window of the trending order, at most limit books, refused iff skip < 0; the page echoed and ceil(count / limit) pages, where a page or limit of 0 also takes its default (1 or 10) |
| Catalogue.FindBook | backend/src/controller/book.controller.ts:272 | the book found has the id; none exactly when no book has it |
| Catalogue.Related | backend/src/controller/book.controller.ts:279-283 | exactly the other books of the genre, highest rating first |
| Catalogue.GetRelatedBooks | backend/src/controller/book.controller.ts:263-293 | 400 for a malformed id, 404 for an unknown one; otherwise the first min(6, count) of the related books, highest rating first |
| Catalogue.RelatedTopSix | backend/src/controller/book.controller.ts:279-284 | a related book left off the list rates no higher than every book on it |
| Catalogue.BestSelling | backend/src/controller/book.controller.ts:305-316 | every book, most copies sold (`quantity − inStock`) first, then highest rating |
| Catalogue.GetBestSellingBooks | backend/src/controller/book.controller.ts:296-340 | refused iff skip < 0 or limit ≤ 0; otherwise the page-th window of the best-selling ranking, at most limit books, counting every book, with the page and limit echoed and ceil(total / limit) pages |
| Catalogue.RecentlySold | backend/src/controller/book.controller.ts:350-360 | exactly the books sold in the last 30 days, newest sale first |
| Catalogue.GetRecentlySoldBooks | backend/src/controller/book.controller.ts:343-379 | the page-th window of the recently-sold order, at most limit books, counted among those sold, with the page and limit echoed and ceil(count / limit) pages |
| Catalogue.GenreBooks | backend/src/controller/book.controller.ts:395 | exactly the books whose genre name equals the query |
| Catalogue.GetBooksByGenre | backend/src/controller/book.controller.ts:382-412 | 400 without a genre; otherwise the page-th window of that genre's books, at most limit books, counted among those, with the page echoed and ceil(count / limit) pages |
| Catalogue.UnknownGenreEmpty | backend/src/controller/book.controller.ts:393-395 | a genre outside the ten names lists nothing |
| BookController.GetBookById | backend/src/controller/book.controller.ts:113-134 | 400 for a malformed id, 404 for an unknown one; otherwise views + 1, lastViewed = now, nothing else changes |
| BookController.CreateBook | backend/src/controller/book.controller.ts:13-58 | 400 for an invalid body, 500 when the schema refuses the new book; otherwise the book is stored under a fresh id pushed onto the owner's list |
| BookController.StoreNewBook | backend/src/controller/book.controller.ts:39-55 | the new book under its fresh id and the id appended to the owner's `books` |
| BookController.DeleteBook | backend/src/controller/book.controller.ts:209-224 | 404 unless the caller owns the book; otherwise it is deleted and pulled from the owner's list |
| BookController.PullAfterPush | backend/src/controller/book.controller.ts:219-221 | deleting a book just created restores the owner's list |
| CartPage.ToggleSelect | frontend/src/components/pages/CartPage.tsx:28-34 | a selected book loses all its entries, an unselected item is appended, entries of other books stay |
| CartPage.WithoutAbsentBook | frontend/src/components/pages/CartPage.tsx:31 | filtering an id no entry has changes nothing |
| CartPage.WithoutBookAppend | frontend/src/components/pages/CartPage.tsx:30-32 | filtering commutes with appending one entry |
| CartPage.WithoutBookTwice | frontend/src/components/pages/CartPage.tsx:31 | filtering an id twice is filtering it once |
| CartPage.ToggleKeepsOthers | frontend/src/components/pages/CartPage.tsx:30-32 | entries of other books are the same, in the same order, after a toggle |
| CartPage.ToggleTwice | frontend/src/components/pages/CartPage.tsx:28-33 | toggling an unselected item twice restores the selection |
| CartPage.ToggleDistinct | frontend/src/components/pages/CartPage.tsx:28-33 | a toggle never makes two entries share a book |
| CartPage.HandleOrderNow | frontend/src/components/pages/CartPage.tsx:36-43 | a selection is sent on iff it is non-empty, and is then cleared; an empty one stays |

## Left out

- Store I/O: queries, `populate`, `save` and `Promise.all` are map reads and writes. Saves succeed, except the modelled schema failures: cart lines of quantity 0, and book title, cover or author blank after trimming.
- Concurrency: requests run one at a time, so races between the stock check and the decrement are not modelled.
- Express plumbing and the auth middleware: the current user is a parameter. The auth controller (bcrypt, JWT, cookies) is not part of this model.
- `updateBook`, `getCart`, `getUserOrders` and `getOrderById` are not modelled. They are a schema-checked overwrite and plain reads.
- The Order schema file (`models/Order`) is not part of this model. Saving an order is assumed to succeed.
- Errors the handlers do not catch (a failed schema check, a lookup that meets a deleted book) give status 500, the reply assumed of the shared error handler.
- Joi internals: `.email()` and `.iso()` are uninterpreted predicates, and so is the instant an ISO date denotes. `precision(2)` is dropped. A body field is its JSON value, so string-to-number conversion is not modelled.
- ObjectId validity is decided by the caller (`IdParam`). Ids are natural numbers from one counter, so `toString()` comparison is id equality.
- Search: `$regex` is modelled as a literal substring search with ASCII case folding. Pattern metacharacters and Unicode case folding are not modelled.
- Page parameters: a non-numeric string (`NaN`) is not modelled. An empty string behaves like an absent parameter.
- Money is an exact real with no floating-point rounding. Time is integer milliseconds, and "30 days ago" is exactly 30 × 24 hours back, with no calendar or daylight-saving effects.
- The stock loop uses one `now` for every line, where the source reads the clock once per line.
- Sort ties: the store leaves their order unspecified, and the model keeps collection order.
- The checkout request's items are well-formed (book id and quantity). Malformed shapes that throw while being read are not modelled.
- CartController.AddToCart: the quantity is a JSON number. Joi's default conversion also accepts a numeric string such as "2"; then `existingItem.quantity += quantity` concatenates ("3" + "2" gives 32 once cast). The model does not capture this. CartValidation.CartBodyValid refuses strings for the same reason.
- String lengths are counts of characters. JavaScript `.length` and Joi's `min(n)` count UTF-16 code units, so characters outside the Basic Multilingual Plane count once here and twice in the source.
- CartController.UpdateCart: the unvalidated `quantity` is an integer, so non-numeric values are not modelled.
- OrderController.CreateOrder: the object spread of a Mongoose subdocument is modelled as a plain copy of the line with the new quantity.
- The frontend beyond `toggleSelectItem` and `handleOrderNow`: rendering, contexts, network calls, the `alert` and the navigation itself are not modelled.

# Storefront cart and order intake, modelled in Dafny

This project models the parts of a small storefront that carry logic:

- the browser cart (`public/script.js`): a list of line items keyed by product id
  and size, changed in place by "add to cart", "remove" and the +/- quantity
  buttons, and summed into the badge count and the cart total;
- the order server (`server.js`): the validation cascade of `POST /api/orders`,
  `processOrder` writing one `orders` row and one `order_items` row per cart line
  into a two-table store, the start-up sweep that deletes day-old payment
  screenshots, the name under which an upload is stored, and the 404 branch of
  `GET /api/products/:id`.

Files and modules:

| file | module | models |
|---|---|---|
| `cart.dfy` | `CartStore` | class `Cart` over `items: seq<CartItem>`; the specification functions `Added`, `Removed`, `Updated`, `ItemCount`, `Total`; lemmas on key uniqueness, positive quantities and counts |
| `orders.dfy` | `OrderIntake` | `Validate`, class `Store` (tables `orders`, `order_items`, their AUTOINCREMENT counters) with `ProcessOrder`, and the handler `PostOrder` |
| `janitor.dfy` | `UploadJanitor` | the deletion test `IsStale` and the sweep `CleanUpOldUploads` |
| `naming.dfy` | `UploadNaming` | `UploadFilename` and the decimal printing it relies on |
| `catalog.dfy` | `Catalog` | the product lookup and its 404 answer |

Modelling choices:

- Prices and totals are integer cents. The cart total is the exact sum of unit
  price times quantity.
- JavaScript's `undefined`, `null` and values are kept apart (`Field<T>`). The
  handler tests `totalAmount === undefined`, so a `null` total passes validation.
  It then fails the NOT NULL constraint of `orders.totalAmount`, and the handler
  answers 500.
- The database is two sequences with a next-id counter each. `Store.Valid` states
  that ids grow and that every item row refers to an order row.
- The clock, the random upload suffix, the file extension and the directory listing
  are parameters.

Two behaviours of the code that the model states explicitly:

- `processOrder` checks the item list only after the `orders` row is inserted
  (server.js:84-100). An empty list therefore gets a 500 ("Order failed: No items
  in order") and leaves an order row with no items. `Store.ProcessOrder` and
  `PostOrder` state this outcome.
- One `try` wraps the whole sweep (server.js:152-166), so the first failing `stat`
  or `unlink` ends it. File-system failures are not modelled (see below).

## Model

| member | source | states |
|---|---|---|
| `CartStore.FirstMatch` | public/script.js:31 | the result is the position of the first line with key (id, size), or the cart length when no line has it |
| `CartStore.Cart.Find` | public/script.js:52 | the loop returns the first line with key (id, size), or the cart length when there is none |
| `CartStore.Cart.constructor` | public/script.js:1 | the cart starts as the restored snapshot |
| `CartStore.Added` | public/script.js:30-36 | defines the cart after an add: the first line with key (id, size) gains one unit and keeps its name, price and image; with no such line, `(id, name, price, 1, size, image)` is appended |
| `CartStore.Cart.AddItem` | public/script.js:30-36 | the new cart is `Added` of the old one; unique keys and quantities of at least 1 are preserved; the badge count rises by exactly 1 |
| `CartStore.AddExisting` | public/script.js:31-33 | adding a present key adds one unit to the first line with that key; the length and every other line are unchanged, and that line keeps its old name, price and image |
| `CartStore.AddNew` | public/script.js:34-35 | adding an absent key appends exactly one line `(id, name, price, 1, size, image)` at the end and leaves the old lines as they were |
| `CartStore.AddKeepsInvariants` | public/script.js:30-36 | if no two lines share a key before an add, none do after; quantities of at least 1 stay at least 1 |
| `CartStore.AddCountsOne` | public/script.js:30-36 | every add raises the item count by exactly one |
| `CartStore.Removed` | public/script.js:46 | the result holds exactly the lines whose key differs from (id, size), and is no longer than the input |
| `CartStore.RemovedConcat` | public/script.js:46 | removal distributes over concatenation, so the kept lines stay in their original relative order |
| `CartStore.RemovedAbsent` | public/script.js:46 | removing a key that is not in the cart changes nothing |
| `CartStore.RemovedKeepsUniqueKeys` | public/script.js:46 | removal keeps keys distinct |
| `CartStore.RemovedKeepsPositive` | public/script.js:46 | removal keeps every quantity at least 1 |
| `CartStore.Cart.RemoveItem` | public/script.js:45-46 | the new cart is `Removed` of the old one; no line with the key remains; both invariants are preserved |
| `CartStore.RemovedIgnoresMatchingLine` | public/script.js:58-59 | decrementing the matching line before filtering it out does not change what the filter leaves |
| `CartStore.Updated` | public/script.js:51-60 | defines the cart after a quantity button: no matching line leaves it as it is; "increase" adds one unit to the first matching line; "decrease" takes one away, or removes every line with the key once the quantity would reach 0 or less; any other action leaves it as it is |
| `CartStore.UpdateAbsent` | public/script.js:52-53 | updating a key not in the cart leaves the cart unchanged, whatever the action |
| `CartStore.UpdateLine` | public/script.js:55-60 | on the first line with the key, of quantity q: "increase" gives q+1; "decrease" gives q-1 when q > 1 and removes the key entirely when q <= 1; any other action changes nothing |
| `CartStore.UpdateKeepsInvariants` | public/script.js:51-60 | an update keeps keys distinct and quantities at least 1 |
| `CartStore.UpdateCountsOne` | public/script.js:55-59 | with distinct keys and positive quantities, "increase" on a present key raises the item count by one and "decrease" lowers it by one, whether or not the line is dropped |
| `CartStore.Cart.UpdateQuantity` | public/script.js:51-64 | the new cart is `Updated` of the old one; both invariants are preserved |
| `CartStore.ItemCount` | public/script.js:6 | defines the badge count as the sum of the quantities of all lines, first to last |
| `CartStore.Total` | public/script.js:14-21 | defines the cart total as the sum of unit price times quantity over all lines, in cents |
| `CartStore.SumOfRemoved` | public/script.js:6 | with distinct keys, removing one line lowers the item count (and any per-line sum) by exactly that line's share |
| `CartStore.Cart.CountItems` | public/script.js:6 | the reduction returns the sum of the quantities over all lines, which is at least the number of lines when every quantity is at least 1 |
| `CartStore.Cart.CartTotal` | public/script.js:14-21 | the running total is the sum of unit price times quantity over all lines, and is non-negative when every price and every quantity is non-negative |
| `OrderIntake.MissingInfo` | server.js:120 | defines the field check: a customer field that is missing, null or empty, a total that is `undefined` (a `null` or 0 total passes), or an item list that is missing or null (an empty list passes) |
| `OrderIntake.Validate` | server.js:120-125 | "Missing customer or order info." exactly when a customer field (a string) is missing, null or empty, the total is `undefined` or the item list is falsy; "Payment screenshot is required." exactly when the fields pass and no file came; otherwise the stored file name is passed on |
| `OrderIntake.FieldErrorTakesPrecedence` | server.js:120-125 | with bad fields the field error is reported with or without a file |
| `OrderIntake.ZeroTotalPassesEmptyNameFails` | server.js:120-122 | for every request: with truthy customer fields and an item list present, a total of 0 passes the field check; an empty customer name fails it whatever else the request holds |
| `OrderIntake.SizeOrBlank` | server.js:102 | a truthy size is stored as given; any falsy size is stored as the empty string |
| `OrderIntake.NotNullMessage` | server.js:96 | defines the message of a NOT NULL failure of the orders insert, naming the table and the column, as the handler appends it to "Order failed: " |
| `OrderIntake.HasItems` | server.js:100 | defines the item check of `processOrder`: the list is present and has at least one element |
| `OrderIntake.NewOrderRow` | server.js:85-94 | defines the row the orders insert writes: the given id, the four customer fields, the total and the stored screenshot name |
| `OrderIntake.NewItemRow` | server.js:102 | defines the row one item insert writes: the given id, the order id, the product id, the quantity and the size defaulted to `''` |
| `OrderIntake.NullColumn` | server.js:46-55 | the orders insert has no NOT NULL failure exactly when the four customer fields and the total are all non-null |
| `OrderIntake.AcceptedFailsOnlyOnNullTotal` | server.js:120 | after the field check, the orders insert can fail only because the total is `null` |
| `OrderIntake.Store.constructor` | server.js:45-67 | on the first start the tables are empty and both counters are at 1; any `Valid()` store stands for a later start, since the database file keeps its rows and counters across restarts |
| `OrderIntake.Store.InsertOrder` | server.js:84-97 | a NOT NULL violation leaves the table unchanged and reports the column; otherwise exactly one row is appended under a fresh id, which is returned |
| `OrderIntake.Store.InsertItem` | server.js:102 | exactly one item row is appended, under the next item id, with the given order id and `size` defaulted to `''` |
| `OrderIntake.Store.ProcessOrder` | server.js:81-113 | on a failed orders insert nothing changes; otherwise one order row with a fresh id is added; with no items it is rejected with "No items in order" and no item row refers to the new order; with items there are exactly `\|items\|` new item rows, in item order, all carrying the new id; ids stay increasing and every item row refers to an order row |
| `OrderIntake.PostOrder` | server.js:115-133 | a failed check answers 400 with its message and leaves the store and its counters untouched; a null total answers 500 and leaves them untouched; otherwise one order row holding the customer data and the uploaded file name is added under a fresh id; an empty item list then answers 500 with no item row referring to that order; otherwise 200 with the new id and one item row per line, in order, carrying that id with `size` defaulted to `''` |
| `UploadJanitor.IsStale` | server.js:159 | defines the deletion test: an entry is stale exactly when it is a regular file, `now - mtime > 86400000` strictly, and its name starts with `paymentScreenshot-` |
| `UploadJanitor.Survivors` | server.js:155-163 | the kept entries are exactly the listed entries that are not stale, and there are no more of them than entries |
| `UploadJanitor.SurvivorsConcat` | server.js:155-163 | the survivors of two consecutive parts of a listing are the survivors of the first part followed by those of the second, so the kept entries stay in listing order |
| `UploadJanitor.Deleted` | server.js:159-161 | every deleted name carries the screenshot prefix, and kept plus deleted account for every entry |
| `UploadJanitor.DeletedConcat` | server.js:155-161 | the deleted names of two consecutive parts of a listing are those of the first part followed by those of the second, so names are deleted in listing order |
| `UploadJanitor.DeletedExactlyStale` | server.js:159-161 | every stale entry's name is deleted, and every deleted name is a stale entry's |
| `UploadJanitor.ExactlyOneDayIsKept` | server.js:155-159 | the age test is strict: a file exactly 24 hours old is kept, one a millisecond older is deleted |
| `UploadJanitor.CleanUpOldUploads` | server.js:151-167 | the sweep keeps exactly the non-stale entries and removes exactly the stale ones, a file being stale when it is a regular file, older than 24 hours and named with `paymentScreenshot-` |
| `UploadNaming.Decimal` | server.js:27 | the printed form of a number is a non-empty run of decimal digits |
| `UploadNaming.DecimalRoundTrip` | server.js:27 | reading the printed form back gives the number |
| `UploadNaming.UploadFilename` | server.js:26-30 | a stored name starts with the field name and a dash, and has the length of its four parts and the two dashes |
| `UploadNaming.UploadFilenameInjective` | server.js:27-29 | two names from the same field agree only when the timestamps, the random suffixes and the extensions agree |
| `UploadNaming.ScreenshotUploadsAreSwept` | server.js:27-29 | a stored payment screenshot carries the janitor's prefix, so it is deleted exactly when it is a regular file older than 24 hours |
| `Catalog.FindProduct` | server.js:144 | a found product is a row with the requested id; nothing is found exactly when no row has that id |
| `Catalog.GetProduct` | server.js:142-149 | the answer is 404 "Product not found" exactly when no row has the id, and otherwise a row with that id |

## Left out

- The DOM: `updateCartDisplay`'s HTML, `renderDrawerCart`, the drawer events, the search form and the `DOMContentLoaded` handlers are presentation only.
- Local storage: reading and writing the cart snapshot is browser I/O. `Cart.constructor` takes the restored snapshot as a parameter.
- `fetchProducts` and its error display are network I/O.
- `CartStore.Cart.CartTotal`: works on integer cents, while the source multiplies floating-point prices and rounds with `toFixed(2)`.
- Cart lines are values. The source mutates the object found by `cart.find`, but nothing else holds a reference to it, so no aliasing is lost.
- Numbers (ids, quantities, prices, totals, timestamps) are unbounded integers, taken to stay below 2^53. JavaScript numbers are doubles, and at 2^53 `quantity++` (public/script.js:33, 56) leaves the value unchanged, so `AddCountsOne` and `UpdateCountsOne` hold only below that bound.
- Product ids are integers. A `NaN` id from `parseInt`, which never compares equal, is not modelled.
- `public/checkout.js` is entirely commented out and has no behaviour.
- `JSON.parse` of `orderData` and its failure (a 500 answer) are library behaviour. The handler receives parsed data.
- `OrderIntake.PostOrder`: `items` is a list whenever it is present. A truthy non-array `items` is not modelled. Without a truthy `length` (an object, a number, `true`) it is refused at server.js:100 like an empty list. With one (a non-empty string) the `forEach` call throws, and the `catch` at server.js:106-107 turns that into a 500. Either way the order row is already written. The total is an integer, not a floating-point number.
- `OrderIntake.PostOrder`: requests are handled one at a time, and the item rows are taken to be written when the promise resolves. In the source the item inserts are queued only in the callback of the orders insert (server.js:95-103), so another request's orders insert can land between them, and `resolve` (server.js:105) runs once the inserts are queued, before they complete. The new order row being last in the table and the item ids running on from the old counter hold only when requests do not interleave.
- `OrderIntake.NewOrderRow`: the `orderDate` column (server.js:54) is filled by the database clock (`DEFAULT CURRENT_TIMESTAMP`) and is not part of the modelled row.
- `OrderIntake.Store.ProcessOrder`: every `order_items` insert succeeds. `stmt.run` is called without a callback (server.js:102), so the handler has already answered and never sees the result of an item insert.
- `OrderIntake.NotNullMessage`: only the NOT NULL failures of the `orders` insert are modelled, with the message text the SQLite driver gives them. Other storage errors and their messages are outside the model.
- `OrderIntake.Validate`: the customer fields are strings. A JSON number or boolean in their place (falsy `0` or `false`, which the field check refuses; any other number, which is stored as text) is not modelled.
- `Catalog.FindProduct`: the path id is the integer SQLite compares against. The conversion of the `:id` path text by SQLite's type affinity is not modelled.
- Express routing, multer's disk storage and destination, table creation and the database connection are library plumbing.
- `GET /api/products` returns every row unchanged; it is a plain read with no logic of its own.
- `Date.now`, `Math.random` and `path.extname` are parameters of `UploadFilename`. The extension is assumed to be empty or to start with a dot, as `path.extname` returns it.
- `UploadJanitor.CleanUpOldUploads`: `fs.readdir`, `fs.stat` and `fs.unlink` are taken to succeed. The source's single `try` around the loop, which ends the sweep at the first failure, is not modelled. Modification times are whole milliseconds.
- The sweep runs once at start-up. The model is one call of `CleanUpOldUploads`.

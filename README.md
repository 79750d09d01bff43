# Storefront cart, checkout and session model

A Dafny model of the core of a storefront backend written for Express and
Mongoose. The model covers four parts:

- **Item schema** (`ItemSchema`, item_schema.dfy): when a submitted item document is
  accepted, and how it is normalised. The name is trimmed and the stock defaults to 100.
- **Authentication middleware** (`Auth`, auth.dfy): the path from the Authorization
  header to a verdict.
  - The token is the header with its first `"Bearer "` removed.
  - The token must verify and must name an existing user.
  - It must also equal the one token stored for that user, so a later login elsewhere
    invalidates it (single active session).
- **Cart routes** (`CartRoutes`, cart_routes.dfy): get with total, add, set quantity,
  remove and clear, over one cart per user.
- **Order routes** (`OrderRoutes`, order_routes.dfy): list, get, checkout and status
  update.

The document store is the class `Persistence.Store` (store.dfy). It has three fields:

- `items`: the catalog;
- `carts`: one line list per user;
- `orders`: placed orders, where an order's id is its position.

Every cart handler, checkout and the order status update is a method that modifies the
store. GET of one order is a method that only reads it, and the order list is the function
`OrdersOf` over the stored orders. Every handler keeps the store invariant `Valid()`:

- stored items satisfy the schema (in particular, no negative stock);
- a cart holds at most one line per item;
- an order's total is the sum of its lines.

Prices are integer cents.

Checkout walks the cart's lines in order. For each line it re-reads the item, checks the
stock, and decrements and saves it at once. The walk is specified by three functions over
prefixes of the cart:

- `Apply`: the catalog after the decrements;
- `Passes`: every line found enough stock when its turn came;
- `Snapshot`: the order lines.

The loop method `TakeLines` is proved against these functions. `Checkout` is proved to:

- produce the order and the emptied cart exactly when the whole cart passes;
- otherwise stop at the first failing line, leaving the decrements made before it in place.

Where the code's behaviour differs from what a shop evidently intends, the model follows
the code. The differences are these:

- **Checkout is not atomic.** A failure on a later line does not restore the stock taken
  for earlier lines, and the check is a plain read-then-write (`CheckoutNotAtomic`).
- **A deleted item gives 500, not 404.** When a cart line's item no longer exists,
  populating the cart yields null, and reading `cartItem.item._id` throws. The result is
  500 "Error creating order". The 404 branch at routes/orderRoutes.js:59-63 is reachable
  only through a deletion that races with the checkout, which this sequential model does
  not have.
- **The add-to-cart stock check ignores the cart.** Adding compares the stock with the
  quantity being added only, not with what the cart already holds.
- **Quantities may be zero or negative.** `quantity || 1` treats 0 as 1 and passes a
  negative quantity through. Checkout does not reject one either: it raises the stock and
  makes the order total negative (`CheckoutNegativeQuantity`).
- **A deleted item gives 500 in update and GET.** Updating a line whose item was deleted
  gives 500, and so does reading a cart that holds such a line.

## Model

| member | source | states |
|---|---|---|
| ItemSchema.ParseCategory | models/Item.js:22-26 | a string is accepted exactly when it is one of the six category names, and the category returned has that name |
| ItemSchema.ParseCategoryName | models/Item.js:22-26 | every category's name parses back to that category |
| ItemSchema.TrimStart | models/Item.js:7 | the result is a suffix of the input, does not start with white space, and everything dropped is white space |
| ItemSchema.TrimEnd | models/Item.js:7 | the result is a prefix of the input, does not end with white space, and everything dropped is white space |
| ItemSchema.TrimIsTrimmed | models/Item.js:7 | a trimmed name has no white space at either end |
| ItemSchema.TrimIsSlice | models/Item.js:7 | trimming keeps one contiguous slice of the name |
| ItemSchema.TrimCutsOnlySpace | models/Item.js:7 | everything trimming removes, on either side, is white space |
| ItemSchema.TrimTrimmed | models/Item.js:7 | a name with no white space at its ends is left unchanged |
| ItemSchema.TrimIdempotent | models/Item.js:7 | trimming twice is trimming once |
| ItemSchema.Create | models/Item.js:3-32 | a document is stored if and only if it has no validation error, and otherwise all of its errors are reported; a stored item satisfies the schema, has the trimmed name, has the given stock or 100, and keeps every other submitted field as given |
| ItemSchema.CreateInputOf | models/Item.js:3-32 | submitting a valid item's own fields stores exactly that item |
| ItemSchema.StockDefault | models/Item.js:27-32 | an otherwise valid document without a stock is stored with stock 100 |
| ItemSchema.NegativeRejected | models/Item.js:13-32 | a negative price or stock is rejected by the `min` validator of that path |
| ItemSchema.BlankNameRejected | models/Item.js:4-8 | a name made only of white space counts as missing |
| Auth.ReplaceFirstAbsent | middleware/auth.js:7 | a header without "Bearer " is left as it is |
| Auth.ReplaceFirstAt | middleware/auth.js:7 | only the first occurrence of "Bearer " is removed, wherever it sits in the header |
| Auth.ExtractBearer | middleware/auth.js:7 | the header "Bearer t" yields the token t |
| Auth.ExtractRaw | middleware/auth.js:7 | a header without "Bearer " is used whole as the token |
| Auth.StatusOf | middleware/auth.js:9-43 | every rejection is 401, except an unexpected verification error, which is 500 |
| Auth.CodeOf | middleware/auth.js:24-29 | only the token mismatch carries the code TOKEN_MISMATCH |
| Auth.AcceptIff | middleware/auth.js:4-34 | a request proceeds if and only if all of these hold: the token is non-empty, it verifies, it names an existing user, and it equals that user's stored token; the user and token are then attached |
| Auth.MissingTokenRejected | middleware/auth.js:9-11 | a missing or empty token is rejected whatever the verifier and the user table say |
| Auth.VerifyErrors | middleware/auth.js:14-43 | malformed gives 401 "Invalid token", expired gives 401 "Token expired", any other error gives 500 "Server error during authentication", an unknown user is rejected, and a mismatched token gives TOKEN_MISMATCH |
| Auth.NoStoredTokenRejects | middleware/auth.js:24-29 | a user without a stored token (logged out) is never let through |
| Auth.OneTokenPerUser | middleware/auth.js:24-29 | any two accepted requests for the same user carry the same token, namely the stored one |
| Auth.ReissueInvalidatesOld | middleware/auth.js:24-29 | once a new token is stored for a user, a different token that still verifies is rejected with TOKEN_MISMATCH |
| CartRoutes.AddedQuantity | routes/cartRoutes.js:49-72 | the default of the added quantity: a missing quantity or 0 gives 1, and any other number is used as it is |
| CartRoutes.FindIndex | routes/cartRoutes.js:61-63 | returns -1 exactly when no line has the item, and otherwise the first line that has it |
| CartRoutes.CartTotal | routes/cartRoutes.js:19-21 | the total is defined exactly when every line's item still exists (otherwise the handler gives 500) |
| CartRoutes.CartTotalNonNegative | routes/cartRoutes.js:19-21 | with valid items and positive quantities, the cart total is not negative |
| CartRoutes.AddLineMerges | routes/cartRoutes.js:65-67 | when the item is already in the cart, its first line's quantity grows by the added quantity and nothing else changes |
| CartRoutes.AddLineAppends | routes/cartRoutes.js:68-73 | when the item is not in the cart, one line is appended at the end |
| CartRoutes.AddLineDistinct | routes/cartRoutes.js:60-74 | adding keeps one line per item, and the item is then in the cart |
| CartRoutes.SetQuantityAt | routes/cartRoutes.js:119 | setting a quantity replaces the quantity of the item's line and nothing else |
| CartRoutes.SetQuantityDistinct | routes/cartRoutes.js:105-119 | setting a quantity keeps one line per item |
| CartRoutes.RemoveItemMembers | routes/cartRoutes.js:144-146 | after removal, the lines are exactly the original lines of other items |
| CartRoutes.RemoveItemConcat | routes/cartRoutes.js:144-146 | removal filters each part of a cart independently, keeping the order |
| CartRoutes.RemoveItemAbsent | routes/cartRoutes.js:144-146 | removing an item that is not in the cart changes nothing |
| CartRoutes.RemoveItemIdempotent | routes/cartRoutes.js:144-146 | removing twice is removing once |
| CartRoutes.RemoveItemAt | routes/cartRoutes.js:144-146 | in a cart with one line per item, removal deletes exactly that item's line |
| CartRoutes.RemoveItemDistinct | routes/cartRoutes.js:144-146 | removal keeps one line per item and leaves the item absent |
| CartRoutes.Cleared | routes/cartRoutes.js:166-169 | an existing cart becomes empty, no cart is created, and no other cart changes |
| CartRoutes.ClearIdempotent | routes/cartRoutes.js:162-179 | clearing twice is clearing once |
| CartRoutes.GetCart | routes/cartRoutes.js:9-31 | a missing cart is created empty with total 0; otherwise the response is the cart with its total, or 500 when a line's item is gone; items and orders are unchanged |
| CartRoutes.AddToCart | routes/cartRoutes.js:34-87 | gives 400 for a missing id, 404 for an unknown item and 400 when stock is below the added quantity, in that order; otherwise the cart, created if needed, is the old cart with the line added; the stock is not touched |
| CartRoutes.UpdateQuantity | routes/cartRoutes.js:90-131 | gives 400 for quantity below 1, 404 for no cart, 404 when the item is not in the cart, 500 when the item is gone and 400 for short stock, in that order; otherwise only that line's quantity changes |
| CartRoutes.RemoveFromCart | routes/cartRoutes.js:134-159 | gives 404 without a cart; otherwise the cart keeps exactly the lines of other items |
| CartRoutes.ClearCart | routes/cartRoutes.js:162-179 | empties the user's cart if there is one and creates none, returning null when there is none |
| OrderRoutes.ApplyStock | routes/orderRoutes.js:71-73 | taking a run of lines keeps the same items and changes only stock; each stock drops by the total quantity of the lines that reference the item |
| OrderRoutes.PassesEach | routes/orderRoutes.js:56-69 | a cart passes exactly when each line finds enough stock after the lines before it |
| OrderRoutes.PassesPrefix | routes/orderRoutes.js:56-69 | every prefix of a passing cart passes |
| OrderRoutes.FailsAtFirst | routes/orderRoutes.js:56-69 | checkout stops at line k exactly when k is the first line that cannot be taken |
| OrderRoutes.FailsIffNotPasses | routes/orderRoutes.js:56-69 | a cart fails at some line if and only if it does not pass |
| OrderRoutes.FirstNotTakeable | routes/orderRoutes.js:56-69 | when some line cannot be taken, there is a first such line |
| OrderRoutes.TakeStep | routes/orderRoutes.js:56-83 | one more line taken extends the passing prefix, the decrements and the order lines by that line |
| OrderRoutes.OrderTotalAppend | routes/orderRoutes.js:82 | one more order line adds price times quantity to the total |
| OrderRoutes.PassesKeepsValid | routes/orderRoutes.js:65-73 | a passing checkout never drives a stock negative |
| OrderRoutes.SnapshotLines | routes/orderRoutes.js:76-80 | there is one order line per cart line, in cart order, with the cart quantity and the item's price at checkout time |
| OrderRoutes.OrderTotalIsCartTotal | routes/orderRoutes.js:76-82 | the order total equals the total that GET cart reports for the same cart and catalog |
| OrderRoutes.CheckoutNotAtomic | routes/orderRoutes.js:56-73 | stock 5 of a and 0 of b, cart [a×2, b×1]: checkout fails at b with 400, and a's stock is already 3 |
| OrderRoutes.CheckoutTwoLines | routes/orderRoutes.js:52-91 | cart [a×2 at 10.00, b×1 at 5.00] with enough stock: both lines are copied with their prices, the total is 25.00, and the stocks drop by 2 and 1 |
| OrderRoutes.CheckoutNegativeQuantity | routes/orderRoutes.js:65-82 | a line of quantity -3 passes with no stock, raises the stock to 3, and gives a total of -30.00 |
| OrderRoutes.ParseStatus | routes/orderRoutes.js:115-116 | a status is accepted exactly when it is one of the five names, and the status returned has that name |
| OrderRoutes.ParseStatusName | routes/orderRoutes.js:115-116 | every status name parses back to its status |
| OrderRoutes.OrdersOf | routes/orderRoutes.js:10-20 | the listed orders are exactly the user's orders |
| OrderRoutes.OrdersOfNewestFirst | routes/orderRoutes.js:12-14 | the listed orders come newest first |
| OrderRoutes.GetOrder | routes/orderRoutes.js:24-40 | an order is returned if and only if it has that id and belongs to the user; otherwise the result is 404 |
| OrderRoutes.TakeLines | routes/orderRoutes.js:52-83 | succeeds exactly when the cart passes, with the decremented catalog, the order lines and their total; otherwise stops at the first failing line with that line's error, keeping the decrements before it |
| OrderRoutes.Checkout | routes/orderRoutes.js:43-108 | an empty or missing cart gives 400; otherwise an order is placed if and only if the cart passes; the order is pending, takes the next id, has the snapshot lines and their total, and the cart is emptied; on failure there is no order, the cart is unchanged, and stock stays decremented up to the failing line |
| OrderRoutes.UpdateStatus | routes/orderRoutes.js:111-138 | an unknown status gives 400 and a foreign or missing order gives 404; otherwise only that order's status changes |

## Left out

- Catalog routes, seeding scripts, server wiring and request logging are not part of this
  model.
- Login and logout, which write the stored token, are not part of this model. Their effect
  is the `users` map passed to `Auth.Authenticate`; `Auth.ReissueInvalidatesOld` covers the
  overwrite.
- Token verification, including signatures, secrets and expiry times, is a function
  parameter. It reports only an identity or one of three failures.
- Concurrency is left out. Each handler runs to completion, so races between requests are
  not modelled: the oversell race in checkout, and the 404 branch for an item deleted
  during checkout.
- Errors of the store itself are not modelled: a failed save, a failed user lookup, or an
  id that is not a valid ObjectId. Neither is the generic 500 they would produce.
- Only the response bodies that carry information are modelled. `toFixed(2)` formatting,
  `populate` and the HTTP status codes of success responses are left out.
- Floating-point prices are modelled as integer cents, so rounding is left out.
- Orders have no timestamps. Sorting by creation time descending is modelled as the
  reverse of placement order; orders created in the same millisecond are assumed to be in
  placement order.
- The cart, order and user schemas are not part of this model. No constraint on quantities
  or statuses is assumed beyond what the routes check.
- A request field may be missing (modelled) or null. Null is not modelled separately.
- In PUT /cart/:itemId, a quantity that is not a number is not modelled: the model takes
  an integer.
- In POST /cart, a quantity that is not an integer is not modelled either: the model takes
  an integer. A string quantity would be concatenated onto an existing line's quantity
  (`1 + "2"` gives `"12"`), and a fractional quantity would be stored as given.
- Item ids are compared as exact strings. The code compares `cartItem.item.toString()`
  with the raw request id, while the item lookup accepts any spelling of the ObjectId. An
  id in upper-case hex therefore finds the item but misses its existing cart line, and a
  second line for the same item is pushed. The model does not have this case, and it is
  what lets `Store.Valid` promise one line per item in every cart.
- OrderRoutes.OrdersOf: the response to a store error (500 "Error fetching orders") is not
  modelled, because the model's store cannot fail.

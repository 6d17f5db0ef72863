# Storefront checkout core, modelled in Dafny

This project models the core of a small Express/MySQL storefront: a user's
cart turned into an order. It runs over three tables and their neighbours:

- product stock;
- per-user cart lines (`cart_items`);
- orders with their order items.

The model covers:

- **Cart store** (`Cart`): adding, updating and removing cart lines. Adding
  clamps the quantity to the stock and takes a snapshot of the price. The
  module also joins the lines with live product data and computes the totals.
- **Order placement** (`Checkout`): POST /checkout as an all-or-nothing
  transaction. The steps are:
  1. the shipping-form gate;
  2. the emptiness gate;
  3. a pre-check, in cart order, of every line against live stock;
  4. one order row, then one order item and one conditional stock decrement
     (`stock >= qty`) per line;
  5. clearing the user's cart.

  A rollback leaves the rows of every table as they were (see "## Left out" for the order-id counter).
- **Catalog and admin** (`Catalog`):
  - the `/products` listing query, whose WHERE fragments and parameter list
    are built in step;
  - the page offset;
  - the stored image path;
  - product create, edit and soft delete on the same product table that the
    cart and checkout read;
  - the active-only detail lookup.
- **Accounts** (`Accounts`):
  - registration, keyed by a unique email;
  - the login decision and `returnTo` handling;
  - forgot-password reset rows;
  - single-use, one-hour reset tokens.
- **Access guards** (`Guards`): `ensureAuthenticated`, `ensureGuest` and
  `ensureAdmin`, as decisions over the session.

Design of the model:

- **Tables live in objects.** The tables are fields of the `Schema.Shop` and
  `Accounts.AccountDb` objects. The products, orders and order items are maps
  keyed by id. Each user's cart lines are a sequence in insertion order. Users
  and reset rows are sequences, and a row's id is its position.
- **Handlers are methods.** Each route handler is a method with a `modifies`
  clause. Its postcondition gives the whole new state, or says that the state
  is `unchanged`, which is the model of a rollback.
- **The checkout is split up.** The checkout transaction reads the tables into
  locals, runs its two loops (`PreCheck`, `InsertItemsAndReserve`), and writes
  every table back in one `Commit`. An early return writes nothing.
- **Money is integer cents.** Totals and subtotals are therefore exact.
- **Outside services are inputs.** Password hashing and comparison, the
  SHA-256 digest, the random token and the clock are inputs. So are the column
  defaults that the schema script sets (a new user's role).

Modules, one file each:

| file | module |
|---|---|
| `base.dfy` | `Base` |
| `text.dfy` | `Text`: JavaScript `trim` and `replace` |
| `schema.dfy` | `Schema` |
| `cart.dfy` | `Cart` |
| `checkout.dfy` | `Checkout` |
| `catalog.dfy` | `Catalog` |
| `guards.dfy` | `Guards` |
| `accounts.dfy` | `Accounts` |

## Model

| member | source | states |
|---|---|---|
| Text.TrimStart | src/routes/checkout.js:48-52 | the result is a suffix of the input that does not start with whitespace, and everything dropped is whitespace |
| Text.TrimEnd | src/routes/checkout.js:48-52 | the result is a prefix of the input that does not end with whitespace, and everything dropped is whitespace |
| Text.Trim | src/routes/checkout.js:48-52 | `trim()` returns a slice of the text that neither starts nor ends with whitespace, and everything it cut off before and after that slice is whitespace; a blank text trims to "" |
| Text.IndexOfFrom | src/routes/products.js:59 | the position found is the first occurrence of the pattern at or after the start; none means there is no occurrence |
| Text.ReplaceAllRemovesChar | src/routes/products.js:59 | a global replace of a single character by a text free of it leaves no such character |
| Text.ReplaceAllNoMatch | src/routes/products.js:59 | a global replace on a text that lacks the pattern's first character returns the text unchanged |
| Text.ReplaceFirst | src/routes/products.js:59 | `replace` with a string pattern: with no occurrence the text is unchanged; otherwise the text before the first occurrence and the text after it are kept, and the replacement stands between them |
| Text.ReplaceAll | src/routes/products.js:59 | a global replace keeps the length when the replacement is as long as the pattern, never lengthens the text when it is shorter, and maps "" to "" |
| Text.ReplaceAllNoOccurrence | src/routes/products.js:59 | a global replace on a text in which the pattern occurs nowhere returns the text unchanged |
| Text.ReplaceCharPointwise | src/routes/products.js:59 | a global replace of one character by another rewrites exactly the positions holding it and keeps every other character |
| Text.ReplaceFirstOfPrefix | src/routes/products.js:59 | replacing the first occurrence of a prefix by "" removes exactly that prefix |
| Schema.WithLines | src/routes/cart.js:48-52 | rewriting one user's lines changes that user's lines to the new ones and every other user's lines not at all; a user with no lines has no entry |
| Schema.WithSameLines | src/routes/cart.js:76 | writing back a user's own lines leaves the cart table equal to what it was |
| Schema.StoreLines | src/routes/cart.js:48-52 | storing a duplicate-free list of lines that point at existing products, with non-negative quantities, keeps the cart table well formed |
| Schema.PutProductKeepsValid | src/routes/products.js:92-95 | rewriting an existing product with non-negative stock and price keeps every table invariant |
| Schema.InsertProductKeepsValid | src/routes/products.js:63 | the next id is unused, and inserting a product with non-negative stock and price under it, then advancing the counter, keeps every table invariant |
| Schema.Shop.SetLines | src/routes/cart.js:48-52 | storing a duplicate-free, well-formed list of lines for one user replaces exactly that user's lines, leaves every other table as it was, and keeps the invariants |
| Schema.Shop.InsertProduct | src/routes/products.js:63 | the insert puts the product under the next auto-increment id, which was unused, advances the counter, changes no other table and keeps the invariants |
| Schema.Shop.SetProduct | src/routes/products.js:92-95 | an UPDATE of an existing product replaces exactly that row, changes no other table and keeps the invariants |
| Cart.Find | src/routes/cart.js:45 | `... WHERE user_id = ? AND product_id = ? LIMIT 1` finds the first line for the product, and none exactly when no line has it |
| Cart.FindIs | src/routes/cart.js:45 | a matching line with no earlier match is the one the lookup finds |
| Cart.Lookup | src/routes/cart.js:45-46 | the line returned is in the cart and is for the product; none exactly when no line is |
| Cart.CurrentQuantity | src/routes/cart.js:45-46 | `existRows.length ? quantity : 0`: 0 when no line has the product; in duplicate-free lines, the quantity of the product's line |
| Cart.Upsert | src/routes/cart.js:48-52 | the write keeps the existing lines' products in place and adds a line only when the product had none; every line is either the written one or an old one |
| Cart.UpsertLookup | src/routes/cart.js:48-52 | after an add, the product's line is exactly the written line (new quantity, current price), and every other product's line is unchanged |
| Cart.UpsertWellFormed | src/routes/cart.js:48-52 | adding a line for an existing product keeps the user's lines duplicate-free and well formed |
| Cart.UpsertDistinct | src/routes/cart.js:48-52 | update-or-insert never creates a second line for one product |
| Cart.Remove | src/routes/cart.js:86 | `DELETE ... LIMIT 1` drops exactly the found line and keeps the rest in order; no line means no change |
| Cart.RemoveLookup | src/routes/cart.js:86 | after a remove the product has no line, and every other product's line is unchanged |
| Cart.RemoveLookupSame | src/routes/cart.js:86 | after a remove, the removed product has no line left |
| Cart.RemoveLookupOther | src/routes/cart.js:86 | a remove does not change any other product's line |
| Cart.RemoveDistinct | src/routes/cart.js:86 | removing keeps the lines duplicate-free |
| Cart.RemoveWellFormed | src/routes/cart.js:70 | removing keeps a user's lines well formed |
| Cart.RemoveIdempotent | src/routes/cart.js:86 | removing twice is the same as removing once |
| Cart.SetExisting | src/routes/cart.js:76 | an UPDATE without a matching row never inserts: the number of lines stays the same |
| Cart.SetExistingLookup | src/routes/cart.js:76 | the update rewrites the product's line only when one exists, and leaves every other line as it was |
| Cart.AddedQuantity | src/routes/cart.js:47 | `max(1, min(stock, current + requested))` is at least 1, at most the stock when the stock is at least 1, exactly the sum when that fits, and 1 when the stock is 0 or less |
| Cart.UpdatedQuantity | src/routes/cart.js:75 | `min(requested, stock)` is at most both values and equal to one of them |
| Cart.CartRows | src/routes/cart.js:17-23 | the inner join has no more rows than lines; every row is for an existing product and carries its live name and stock and the subtotal quantity × unit price; every line whose product exists is joined into some row; when every product exists it is exactly one row per line, in order |
| Cart.CartRowsDistinct | src/routes/checkout.js:8-18 | duplicate-free cart lines give duplicate-free joined rows |
| Cart.SumSubtotals | src/routes/cart.js:9 | the accumulating `reduce` equals the start value plus the sum of the subtotals |
| Cart.ComputeTotals | src/routes/cart.js:8-13 | shipping is 0, and subtotal and total are both the sum of the rows' subtotals |
| Cart.TotalIsCartValue | src/routes/cart.js:8-23 | the total shown for the cart is the sum over the stored lines of quantity × snapshot price |
| Cart.LineSumOfRows | src/routes/cart.js:17-23 | the joined rows' subtotals add up to the stored lines' value |
| Cart.AddToCart | src/routes/cart.js:28-56 | an invalid input, or a missing or inactive product, changes nothing. Otherwise the product's line is upserted with the clamped quantity and the current price. No other user, product line or table changes, and the invariants are kept |
| Cart.UpdateCart | src/routes/cart.js:58-79 | an invalid input changes nothing. Quantity 0 deletes the line. For a quantity above 0, a missing product changes nothing; otherwise an existing line is rewritten with `min(requested, stock)` and the current price, and nothing is ever inserted. An absent line is a no-op, and nothing else changes |
| Cart.RemoveFromCart | src/routes/cart.js:81-88 | an invalid id changes nothing; otherwise only the user's line for the product is deleted (a no-op when there is none), and nothing else changes |
| Checkout.PendingOrder | src/routes/checkout.js:90-104 | the inserted order is pending/pending with the given user, total and payment method; its address, city, postal code, country and phone are the form's trimmed fields, which meet the validated lengths |
| Checkout.ShippingValid | src/routes/checkout.js:48-53 | a valid form pays cash on delivery and its raw fields are at least as long as the trimmed minimums; a blank address, city, postal code, country or phone is refused |
| Checkout.CheckoutPageOpens | src/routes/checkout.js:37-42 | the checkout page opens exactly when the rows' subtotals add up to more than 0, and so only for a non-empty cart |
| Checkout.ZeroPricedCartPassesEmptinessGate | src/routes/checkout.js:38-68 | for any non-empty cart whose lines all carry price 0 and whose products exist, the joined rows are refused by the page, yet they are not empty, so `PlaceOrder` does not answer `EmptyCart` |
| Checkout.FirstShortfall | src/routes/checkout.js:76-85 | the pre-check stops at the first row in cart order whose quantity exceeds its stock; none exactly when every row fits |
| Checkout.OutOfStockLineIsCaught | src/routes/cart.js:47 | a line added while its stock is 0 holds quantity 1, and when the stock is still 0 at checkout the pre-check stops at it or at an earlier row |
| Checkout.Reserve | src/routes/checkout.js:113-116 | the conditional decrement affects one row exactly when the product exists with stock ≥ qty. It then lowers only that product's stock, by qty, and never below 0; otherwise nothing changes |
| Checkout.ReserveAll | src/routes/checkout.js:107-125 | a rejected run names a row of the cart |
| Checkout.ReserveAllEffect | src/routes/checkout.js:113-116 | conservation: after all decrements succeed, each product's stock is its old stock minus what the rows reserved of it, and no product or other column changes |
| Checkout.ReserveAllKeepsStock | src/routes/checkout.js:113-116 | stock never becomes negative |
| Checkout.RejectionPersists | src/routes/checkout.js:117-124 | once a decrement fails, the run stops there: later rows do not change the outcome |
| Checkout.ReservedQuantityAbsent | src/routes/checkout.js:113-116 | a product with no row is reserved 0 |
| Checkout.ReservedQuantityOfRow | src/routes/checkout.js:113-116 | with one row per product, a product's reserved quantity is its row's quantity |
| Checkout.PrecheckedRowsReserve | src/routes/checkout.js:76-125 | rows that pass the pre-check against the stock they were read with, with no product repeated, all reserve successfully |
| Checkout.SequentialCheckoutReserves | src/routes/checkout.js:76-125 | run on its own, a checkout whose cart passes the pre-check never fails at the decrement step |
| Checkout.CommittedStock | src/routes/checkout.js:107-125 | on success each product's stock drops by exactly its line's quantity, and products not in the cart are unchanged |
| Checkout.OrderItemsFor | src/routes/checkout.js:107-112 | one order item per row, in cart order, each carrying the order id, product, quantity, unit price and quantity × unit price |
| Checkout.ItemSumIsLineSum | src/routes/checkout.js:108 | the items' subtotals add up to the rows' subtotals |
| Checkout.OrderTotalMatchesItems | src/routes/checkout.js:20-25 | the order's total equals the sum of its items' subtotals |
| Checkout.PreCheck | src/routes/checkout.js:76-85 | the first loop returns exactly the first short row in cart order |
| Checkout.InsertItemsAndReserve | src/routes/checkout.js:107-125 | the second loop's outcome is the sequential decrement run; on success it has built exactly one item per row |
| Checkout.CommitKeepsTablesValid | src/routes/checkout.js:128-130 | writing back the reserved stock, the new order under the next id, its items, and the user's deleted cart keeps every table invariant |
| Checkout.Commit | src/routes/checkout.js:128-130 | the commit writes the reserved stock, the order and its items under the next id, deletes the user's cart and advances the order id; the invariants hold |
| Checkout.PlaceOrder | src/routes/checkout.js:45-148 | each outcome occurs exactly when its condition holds: an invalid form, an empty cart, the first short product, a failed decrement, or success. Every failure leaves the tables unchanged. Success adds exactly one pending order for the computed total with one item per line, lowers stock by the reserved quantities, clears only this user's cart and advances the order id |
| Catalog.PlaceholdersAppend | src/routes/products.js:25 | placeholders of a concatenation add up |
| Catalog.PlaceholdersSingle | src/routes/products.js:25 | a single token holds one placeholder exactly when it is `?` |
| Catalog.ListingOffset | src/routes/products.js:17-18 | page 1, and the default page and size, give offset 0 |
| Catalog.NextPageOffset | src/routes/products.js:18 | consecutive pages start exactly one page size apart |
| Catalog.ActiveFilters | src/routes/products.js:21-24 | each non-empty text input turns on exactly one filter |
| Catalog.FiltersAreConjuncts | src/routes/products.js:21-24 | every filter contributes an " AND " conjunct with one placeholder |
| Catalog.FragmentsAreConjuncts | src/routes/products.js:21-24 | each of the four optional fragments is an " AND " text followed by one placeholder |
| Catalog.Params | src/routes/products.js:19-24 | one bound parameter per filter, in filter order |
| Catalog.AppendFragment | src/routes/products.js:21-24 | appending a filter appends its fragment to the clause |
| Catalog.AppendFilter | src/routes/products.js:21-24 | one `where +=` / `params.push` step keeps the text and the parameters in step with the filters chosen so far |
| Catalog.FragmentsShape | src/routes/products.js:21-24 | the conjuncts carry one placeholder each, and every text piece starts with " AND " |
| Catalog.WhereShape | src/routes/products.js:20-24 | the WHERE clause starts with `WHERE is_active = 1`, filters only add " AND " conjuncts, and its placeholders equal its parameters |
| Catalog.ConjunctsShape | src/routes/products.js:20-24 | the active-only condition followed by any conjuncts starts with `WHERE is_active = 1`, continues with " AND " pieces only, and has one placeholder per conjunct |
| Catalog.AppendWhen | src/routes/products.js:21-24 | one optional filter step appends the fragment and the parameter exactly when the input is non-empty |
| Catalog.BuildWhere | src/routes/products.js:19-24 | the step-by-step `where +=` / `params.push` code builds exactly the active-only clause with the query's filters and their parameters, in order |
| Catalog.BuildListing | src/routes/products.js:16-25 | the built statement and arguments are the active-only WHERE with the chosen filters, then LIMIT page size and OFFSET (page − 1) × size, and the placeholders equal the arguments |
| Catalog.ListingPlaceholders | src/routes/products.js:25 | the full statement has two placeholders more than the filter parameters (LIMIT and OFFSET) |
| Catalog.ForwardSlashes | src/routes/products.js:59 | both backslash rewrites leave no backslash; in a text without doubled backslashes, each backslash becomes "/" and every other character is kept |
| Catalog.ImagePath | src/routes/products.js:59-60 | the stored path has no backslash and drops at most one leading "/" of the cwd-stripped, slash-normalised path |
| Catalog.CwdPrefixRemoved | src/routes/products.js:59-60 | a processed path under the working directory is stored relative to it, without its leading "/" |
| Catalog.WindowsPathUnderCwd | src/routes/products.js:59-60 | a path under the working directory whose remainder has no doubled backslash (a Windows path) is stored relative to it, with each backslash turned into "/" and a leading separator dropped |
| Catalog.ActiveFlag | src/routes/products.js:91-94 | an absent `is_active` means active; a non-number means inactive; a number means active exactly when it is non-zero |
| Catalog.ImageFor | src/routes/products.js:56-61 | an upload's normalised path wins; otherwise the fallback is kept |
| Catalog.ProductFormValid | src/routes/products.js:48-50 | a valid form has a name of at least two characters and both a price and a stock; a blank name, a missing or negative price, or a missing or negative stock is refused |
| Catalog.ExistingImage | src/routes/products.js:85 | `existing_image_url \|\| null`: the result is either absent or the form's own non-empty URL, and a non-empty URL is always kept |
| Catalog.ProductFromForm | src/routes/products.js:62-63 | a valid form gives a product whose name is the trimmed form name, whose price and stock are the form's (so non-negative), whose description and category are the form's or "", and which has the given image and active flag |
| Catalog.CreateProduct | src/routes/products.js:46-66 | it creates exactly when the form is valid; an invalid form changes nothing. A valid one inserts one product under a fresh id and changes nothing else |
| Catalog.EditProduct | src/routes/products.js:74-98 | it saves exactly when the form is valid. An invalid form or an unknown id changes nothing. Otherwise the product gets the form's columns, the new or kept image and the `is_active` flag, and nothing else changes |
| Catalog.SoftDelete | src/routes/products.js:100-104 | only the product's active flag is cleared; no product is removed and nothing else changes |
| Catalog.ActiveProduct | src/routes/products.js:30-34 | the detail lookup finds a product exactly when it exists and is active |
| Catalog.SoftDeletedIsHidden | src/routes/products.js:100-104 | after a soft delete the product is hidden from the detail lookup, yet its row, stock and price remain |
| Guards.EnsureAuthenticated | src/middleware/auth.js:1-5 | it passes exactly when a user is signed in, changing nothing; otherwise it records the original URL as `returnTo` and redirects to /login |
| Guards.EnsureGuest | src/middleware/auth.js:7-10 | it passes exactly when no user is signed in; otherwise it redirects home |
| Guards.EnsureAdmin | src/middleware/auth.js:12-17 | it passes exactly when a signed-in user has role "admin"; otherwise it answers 403 |
| Guards.GuardsAgree | src/middleware/auth.js:2-13 | exactly one of the guest and authentication guards passes, and a visitor the admin guard passes is signed in |
| Accounts.StrongPassword | src/routes/auth.js:68-72 | measured in Unicode scalar values, a password accepted by registration or reset is long enough for the login form's length rule; a password made only of letters is refused |
| Accounts.NameValid | src/routes/auth.js:66 | a valid name has at least two characters, and a blank name is refused |
| Accounts.UserWithEmail | src/routes/auth.js:27-30 | the lookup finds a user with that email, and none exactly when no user has it |
| Accounts.CheckCredentials | src/routes/auth.js:27-44 | login accepts only a user with that email whose stored hash matches the password |
| Accounts.CredentialsExact | src/routes/auth.js:31-44 | with unique emails, login succeeds exactly when some user has the email and a matching hash; an unknown email and a wrong password are one failure |
| Accounts.ReturnTarget | src/routes/auth.js:54 | the redirect is the recorded non-empty URL, otherwise "/" |
| Accounts.ResetRowFor | src/routes/auth.js:158-161 | the lookup finds the first row with the token hash, and none exactly when no row has it |
| Accounts.AcceptedReset | src/routes/auth.js:162-168 | a token is accepted exactly when its row exists, is unused and has not expired |
| Accounts.UsedTokenRejected | src/routes/auth.js:210-212 | once its row is marked used, a token is rejected at any later time |
| Accounts.FreshTokenWindow | src/routes/auth.js:137 | a freshly issued token is accepted exactly up to one hour after issue |
| Accounts.Register | src/routes/auth.js:64-98 | invalid input or a registered email inserts nothing. Otherwise exactly one user is appended, with the trimmed name, the email and the hash. Emails stay unique |
| Accounts.Login | src/routes/auth.js:15-58 | invalid input and bad credentials change neither the users nor the session. Success stamps the user's last login, sets the session user, redirects to `returnTo` or "/", and clears `returnTo` |
| Accounts.Forgot | src/routes/auth.js:111-151 | invalid input is refused. An unknown email gets the same answer and no row. A known email gets one new unused row holding the token's digest, expiring one hour from now. Users are never changed |
| Accounts.ResetPageOpens | src/routes/auth.js:153-173 | the reset form opens exactly when the first row with the token's hash exists, is unused, and expires no earlier than now |
| Accounts.ResetPassword | src/routes/auth.js:175-215 | a weak password or a rejected token changes nothing. Otherwise the token's user gets the new hash and update time, the token's row is marked used, nothing else changes, and the token is rejected at any later time |

## Left out

- Concurrency is not modelled, because each handler runs alone on the state. That covers `FOR UPDATE` locking, interleaved checkouts and the connection pool (src/routes/checkout.js:14, 64). As a result, the `StockChanged` rollback can only be reached through a concurrent writer, and `Checkout.SequentialCheckoutReserves` shows that a sequential run never reaches it.
- Checkout.PlaceOrder: the `catch` path (src/routes/checkout.js:136-143) for a database error is not modelled, because the model has no failing statements. Its effect, a rollback that leaves the tables' rows unchanged, is the same as the other failure outcomes.
- SQL text is modelled as literal pieces and `?` placeholders, and the character-level text of each piece is not checked. The `SQL_CALC_FOUND_ROWS`/`FOUND_ROWS()` total (src/routes/products.js:25-26) is database behaviour and is left out.
- Catalog.BuildListing: `Number(...)` on `minPrice`, `maxPrice`, `page` and `pageSize` is not modelled, because it is floating-point parsing. The price bounds are bound as `NumberOf(text)`; page and page size come in already converted, and NaN is not represented.
- Checkout.PlaceOrder: a failure outcome leaves `nextOrderId` as it was. In the source, the `StockChanged` rollback (src/routes/checkout.js:117-119) comes after the order INSERT (src/routes/checkout.js:90-104), and InnoDB does not roll back an AUTO_INCREMENT counter. So the source loses that order id and the next order skips it, while the model reuses it.
- Cart.AddToCart, Cart.UpdateCart, Cart.RemoveFromCart: `product_id` and `quantity` are plain integers, so a request whose field is not an integer at all cannot be expressed. The source answers such a request like any other failed `isInt` check (src/routes/cart.js:29-35, 59-65, 81-84): "Input tidak valid" for add and update, a plain redirect for remove, and no write. Only the range checks (`min: 1`, `min: 0`) are modelled.
- Prices are integer cents rather than JavaScript numbers. In the product form, `isFloat`/`isInt` come in as already-parsed `Option` values. `Number(is_active)` is kept abstract as `NumberValue` (a number or NaN).
- Email validation and normalisation (`isEmail().normalizeEmail()`) are not modelled: the handler receives the normalised address, or `None` when the text is not an email.
- Password hashing and comparison (src/utils/password.js), the SHA-256 digest, `crypto.randomBytes` and the clock (`NOW()`, `Date.now()`, `new Date()`) are parameters. `DATETIME` precision is not modelled.
- The reset email and its URL (src/routes/auth.js:142-145, src/utils/email.js) are not modelled, because they are output only.
- Image upload and resizing (src/utils/file.js) are not modelled. The handler receives the processed file's path and the working directory.
- Logout (src/routes/auth.js:100-105) is not modelled, because it only destroys the session store entry and a cookie.
- The home page, the admin list and edit-form pages, the GET form pages, and the read-only reports in src/routes/admin.js are not modelled, because they only render. Rendering, flash messages, redirects, CSRF and the app wiring (src/app.js, src/routes/index.js) are not modelled either.
- Column defaults are not modelled, because scripts/migrate.js is not part of this model. A new user's role is a parameter of `Accounts.Register`, and a created product is active.
- Text.IsSpace: `trim()` strips the JavaScript `\s` set. A length in the model is the number of Unicode scalar values.
- Checkout.ShippingValid, Catalog.ProductFormValid, Accounts.NameValid: validator.js `isLength` counts UTF-16 code units minus surrogate pairs and minus the variation selectors U+FE0E and U+FE0F. The model counts every scalar value, including those selectors. So a field that reaches its minimum only through variation selectors passes the model's check and fails the source's.
- Accounts.StrongPassword, Accounts.Login: the model measures a password by its number of Unicode scalar values. The source uses two other measures. `isStrongPassword` (src/routes/auth.js:68, 177) counts UTF-16 code units, so a character outside the Basic Multilingual Plane counts twice. The login form's `isLength({ min: 6 })` (src/routes/auth.js:18) counts code points minus each U+FE0E and U+FE0F. The clause of `Accounts.StrongPassword` that a strong password passes the login length rule therefore holds for the model's measure only, and the login length test of `Accounts.Login` differs from the source on such characters.
- Accounts.UserWithEmail: emails are compared exactly. MySQL compares `users.email` under the column's collation, which is usually case- and accent-insensitive, and the same collation decides the UNIQUE key behind `Accounts.EmailsUnique`. The table definition is not part of this model, so two addresses that differ only in case or accents are different users here and may be one user in the source.
- Checkout.Reserve: a line of quantity 0 counts as one affected row. The UPDATE `stock = stock - 0` matches the row without changing it. MySQL reports such a row as affected only when the client sets the found-rows flag, which the mysql2 driver does by default; the driver configuration is not part of this model. Without the flag such a line would roll the checkout back with `StockChanged`.
- Cart lines come back in insertion order. The joins have no `ORDER BY`, and insertion order is the order the model assumes for "first short product".
- A user's id is the user's position in the users table, and a reset row's id is its position in the reset table.

## Observations

- Registration and reset can accept a password that the login form then refuses. "aA1!" followed by four U+FE0F is 8 UTF-16 code units long and has all four character classes, so `isStrongPassword` accepts it (src/routes/auth.js:68-72). `isLength({ min: 6 })` counts it as 4 (src/routes/auth.js:18), so that account can never sign in.
- A cart update with a positive quantity stores `min(requested, stock)`, which is 0 when the stock is 0 (src/routes/cart.js:75). Adding never stores a quantity below 1 (src/routes/cart.js:47).
- GET /checkout refuses a cart whose total is not positive (src/routes/checkout.js:38). POST /checkout refuses only an empty cart (src/routes/checkout.js:68), so a cart of zero-priced lines can be ordered (`Checkout.ZeroPricedCartPassesEmptinessGate`).
- The two `computeTotals` functions (src/routes/cart.js:8-13 and src/routes/checkout.js:20-25) compute the same totals and are modelled once.
- `Catalog.EditProduct`: an absent `is_active` field defaults to active, so an edit form without the field re-activates a soft-deleted product.

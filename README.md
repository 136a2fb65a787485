# A verified model of the ecommerce-web cart and session core

This project models the logic of a small shop that has a React front end and an Express/SQLite back end. It covers the following pieces.

- **The server's two tables and its routes** (`server.dfy`, module `Server`):
  - `users (id, name, email UNIQUE, password)` and `carts (id, userId, productId, quantity)`, with their AUTOINCREMENT counters, held in the class `Store`.
  - The `authenticate` middleware.
  - `POST /signup`, `POST /login`, and `POST`, `GET` and `DELETE /cart`.
  - bcrypt and jsonwebtoken are oracles passed in as values (`Bcrypt`, `Jwt`).
- **The Authorization header** (`http.dfy`): the browser writes `Bearer ${token}` and the middleware reads `split(" ")[1]`.
- **The password rule** `/^(?=.*[A-Z]).{8,12}$/` (`password_rule.dfy`). The browser's `validatePassword` and the server's signup route both use it. It is read over UTF-16 code units, because the regex has no `u` flag. Its `.` does not match line terminators.
- **The browser's user context** (`session.dfy`, class `Session.UserProvider`): `signup`, `login`, `logout`, and the effect that mirrors `token` and `user` into localStorage.
- **The browser's cart context** (`cart_mirror.dfy`, class `CartMirror.CartProvider`):
  - `addToCart`, `updateQuantity`, `removeFromCart` and `clearCart`, each on the local cart.
  - The log of requests each one sends to the server.
  - Many lemmas assume the browser cart holds one line per product id (`CartMirror.UniqueIds`). `AddKeepsUniqueIds`, `WithQuantitySets` and `RemovedKeepsUniqueIds` prove that the operations keep this. A cart read back from storage is not checked for it.
- **The cart page** (`cart_page.dfy`): the quantity stepper's two handlers, the `totalAmount` fold, and the choice between "Your cart is empty." and the list of lines.
- **Client and server side by side** (`sync.dfy`). The logged requests are handed to the server's routes in order, one at a time. The lemmas compare the amount the browser shows with what the server's table then holds.

JavaScript strings that the model inspects (names, emails, passwords, tokens, headers) are sequences of UTF-16 code units (`JsValues.JsString`). Response messages and alert texts are Dafny `string`s, because they are only compared and tested for emptiness. An absent or `null` JSON field, or a NULL column, is `None`. Prices are integers.

**POST /cart replaces, it does not add.** When the caller already has a row for the product, the route runs `UPDATE carts SET quantity = ?` with the value sent (`Backend/server.mjs:177-180`). A second POST therefore leaves the quantity it carried, not the sum of the two. `Server.SecondPostOverwrites` states this.

The browser does add locally (`src/Context/cartContext.jsx:29`) but sends only the requested amount (`src/Context/cartContext.jsx:41`). `Sync.AddToCartDrift` proves that after such an add the two sides agree only when the old amount was 0.

## Model

| member | source | states |
|---|---|---|
| Http.BearerHeader | src/Context/cartContext.jsx:42 | The header is "Bearer", one space, then the token, and nothing else. |
| Http.FirstField | Backend/server.mjs:51 | `split(" ")[0]`: a prefix of the header with no space, ending at the first space or at the end. |
| Http.FieldsAt | Backend/server.mjs:51 | The first field ends at a space, and the field after it sits right behind that space and ends at the next space or the end. |
| Http.SecondField | Backend/server.mjs:51 | `split(" ")[1]` is undefined exactly when the header has no space. When defined, it is the text between the first space and the next space (or the end), and holds no space. |
| Http.BearerRoundTrip | Backend/server.mjs:51 | For a token without spaces, the middleware reads back exactly the token the browser wrote after "Bearer ". |
| PasswordRule.ValidatePasswordMeans | src/Context/userContext.jsx:23-26 | `validatePassword` accepts exactly what the regex matches: a lookahead for an A–Z, then 8 to 12 non-line-terminator code units. That is the worded policy (8–12 characters, at least one upper-case letter) read over UTF-16 code units, with `[A-Z]` as the upper-case letters and no line terminators. |
| PasswordRule.RegexMatches | src/Context/userContext.jsx:23-26 | The literal reading of `/^(?=.*[A-Z]).{8,12}$/`: some A–Z is preceded only by `.` matches, the length is 8 to 12, and every code unit matches `.`. |
| PasswordRule.ValidatePassword | src/Context/userContext.jsx:23-26 | The executable check: length 8 to 12, some A–Z, every code unit matches `.`. `ValidatePasswordMeans` proves it equal to the regex. |
| PasswordRule.RejectionCases | Backend/server.mjs:74-81 | A password is refused if it is shorter than 8 or longer than 12 code units, if it contains any line terminator, or if it has no A–Z. |
| Server.Authenticate | Backend/server.mjs:44-62 | No header, or an empty one, gives 401. A header with no second field, or whose token does not verify, gives 403. Otherwise the request runs as the verified userId. |
| Server.AuthenticateSignedToken | Backend/server.mjs:51-60 | The header the browser builds from a token the server signed for u authenticates as u. |
| Server.EmptyTokenRefused | Backend/server.mjs:51-60 | The header "Bearer " sent by a browser holding the empty token gets 403. |
| Server.EmailTaken | Backend/server.mjs:27 | True exactly when some user row already holds the email. |
| Server.EmailTakenRefuses | Backend/server.mjs:27 | Appending a row whose email is taken would break the uniqueness of emails, so the UNIQUE column refuses that INSERT. |
| Server.UserByEmail | Backend/server.mjs:126 | The SELECT returns a row of the table with that email, or no row when no row has that email. |
| Server.FindLine | Backend/server.mjs:168-170 | The SELECT finds the first row matching `userId = ? AND productId = ?`, or none when no row matches. A NULL productId matches nothing. |
| Server.SetQuantityWhereId | Backend/server.mjs:178-180 | The UPDATE sets the quantity of exactly the rows with that id and leaves every other row and the row count unchanged. |
| Server.Upsert | Backend/server.mjs:168-201 | With a matching row, POST /cart keeps the row count and the counter. Without one, it appends one row after the unchanged table and advances the counter by one. |
| Server.InsertQuantity | Backend/server.mjs:192 | The quantity an INSERT stores is never 0 or NULL. It keeps a non-zero quantity and turns an absent quantity or 0 into 1. |
| Server.RowsOf | Backend/server.mjs:211 | `SELECT * FROM carts WHERE userId = ?` holds exactly the rows of that user. |
| Server.RowsOfAppend | Backend/server.mjs:211 | The SELECT over two tables put together is the two results put together, so rows come back in table order. |
| Server.RowsOfSingle | Backend/server.mjs:211 | On one row, the SELECT returns it once when it belongs to the user, and nothing otherwise. With `RowsOfAppend`, this pins the result to the user's rows, each once, in table order. |
| Server.Without | Backend/server.mjs:226-228 | The DELETE keeps exactly the rows that do not match the caller and that product. |
| Server.UpsertReplaces | Backend/server.mjs:177-188 | On an existing row, POST /cart sets that row's quantity to the value sent, which replaces rather than adds. It adds no row and changes no other row. |
| Server.UpsertInserts | Backend/server.mjs:189-201 | With no matching row, POST /cart appends exactly one row. The row has the next id, the caller, the product and the quantity, or 1 when it is falsy. |
| Server.UpsertKeepsIdsValid | Backend/server.mjs:34 | After a POST, cart ids stay positive, strictly increasing and below the counter. |
| Server.UpsertKeepsOneLinePerProduct | Backend/server.mjs:168-201 | Sequential POSTs never create a second row for the same (userId, non-NULL productId). A NULL productId matches nothing, so POSTs without one each insert a row. |
| Server.SecondPostOverwrites | Backend/server.mjs:177-180 | A second POST for the same product finds the row the first one wrote and overwrites its quantity. |
| Server.UpsertOnlyTouchesCaller | Backend/server.mjs:168-201 | A POST leaves every other user's rows exactly as they were. |
| Server.WithoutOnlyTouchesCaller | Backend/server.mjs:226-228 | A DELETE leaves every other user's rows exactly as they were. |
| Server.WithoutKeepsOtherProducts | Backend/server.mjs:226-228 | The caller keeps exactly their rows for other products, and their rows with a NULL productId. |
| Server.WithoutIdempotent | Backend/server.mjs:226-235 | Deleting twice is the same as deleting once. A DELETE that matches nothing leaves the table unchanged. |
| Server.WithoutKeepsIdsValid | Backend/server.mjs:226-228 | A DELETE keeps cart ids positive, increasing and below the counter. |
| Server.WithoutKeepsOneLinePerProduct | Backend/server.mjs:226-228 | A DELETE keeps at most one row per (userId, productId). |
| Server.NewUserIsFound | Backend/server.mjs:126 | After a signup with a fresh email, the login SELECT finds exactly the new row. |
| Server.SignupKeepsUsersValid | Backend/server.mjs:24-29 | Appending a user with the next id and a fresh email keeps user ids increasing and emails unique. |
| Server.Store.constructor | Backend/server.mjs:23-39 | A fresh database has empty tables and counters at 1. |
| Server.Store.Signup | Backend/server.mjs:67-117 | A missing or empty name, email or password gives 400 "All fields are required". A password the rule refuses gives 400 with the rule's message. A taken email gives 400 "Email already exists". In each of these cases the users table is unchanged. Otherwise exactly one row is appended and the answer carries the token for the new id. |
| Server.Store.Login | Backend/server.mjs:122-155 | An unknown email and a wrong password get the identical 400 "Invalid email or password". A match answers with the token for that user's id, name and email. An undefined password gets no answer. |
| Server.Store.PostCart | Backend/server.mjs:160-204 | Returns 401 or 403 with both tables unchanged. Otherwise the cart table becomes the update or insert above, and the answer says which happened. Users and the at-most-one-row invariant are kept. |
| Server.Store.GetCart | Backend/server.mjs:209-218 | Returns 401 or 403; otherwise 200 with exactly the caller's rows, in table order. |
| Server.Store.DeleteCart | Backend/server.mjs:223-237 | Returns 401 or 403 with the tables unchanged. Otherwise the answer is "Item removed", even when no row matched, and the table loses exactly the caller's rows for that product. |
| Server.SignupThenLogin | Backend/server.mjs:98-153 | Signing up and then logging in with the same credentials both succeed. Both return the token for the new id, and that token authenticates as the new user. |
| Session.AlertText | src/Context/userContext.jsx:47 | The alert shows the server's message when there is one and it is not empty, and the fallback otherwise. |
| Session.Persisted | src/Context/userContext.jsx:12-20 | Storage holds both keys exactly when the token and the user are both truthy, and then holds those values. Otherwise it holds neither key. |
| Session.UserProvider.constructor | src/Context/userContext.jsx:7-10 | Mount reads the token, or "", and the user, or null, from storage, and runs the persistence effect. |
| Session.UserProvider.Signup | src/Context/userContext.jsx:29-50 | A password the rule refuses raises the alert, sends nothing, and leaves user and token unchanged. Otherwise exactly one signup request is sent. Success adopts the reply's name, email and token. Failure alerts and changes nothing. |
| Session.UserProvider.Login | src/Context/userContext.jsx:52-65 | One login request is sent. Success adopts the reply's name, email and token. Failure alerts the server's message or "Login failed" and leaves user and token unchanged. |
| Session.UserProvider.Answer | src/Context/userContext.jsx:44-49 | Adopts the reply on success; on an error, alerts and leaves the session as it was. |
| Session.UserProvider.Logout | src/Context/userContext.jsx:67-72 | user becomes null, token becomes "", and both storage keys are removed. |
| CartMirror.Requested | src/Context/cartContext.jsx:19 | The default parameter: an omitted quantity reads as 1, a given one is used as is. |
| CartMirror.NewItem | src/Context/cartContext.jsx:34 | A new line copies the product's id and name, holds the requested quantity, and snapshots the price, or 0 when it is not a number. |
| CartMirror.PriceOf | src/Context/cartContext.jsx:22 | The price snapshot is the product's price, or 0 when the price is not a number. |
| CartMirror.AddedCart | src/Context/cartContext.jsx:24-35 | Adding an id that is already present raises that line by `quantity` and keeps the length and every other line. A new id appends one line with the quantity and the price snapshot. |
| CartMirror.AddedCartAt | src/Context/cartContext.jsx:27-31 | With one line per id, adding a present product changes exactly that one line. |
| CartMirror.AddKeepsUniqueIds | src/Context/cartContext.jsx:24-35 | `addToCart` never makes a second line for an id. |
| CartMirror.AddRaisesOnlyThatQuantity | src/Context/cartContext.jsx:24-35 | With one line per id, the amount of the added product rises by exactly `quantity`, and every other product's amount is unchanged. |
| CartMirror.WithQuantity | src/Context/cartContext.jsx:51-53 | Lines for the id get exactly the quantity given; all other lines are untouched and the length is kept. |
| CartMirror.WithQuantityAt | src/Context/cartContext.jsx:51-53 | With one line per id, `updateQuantity` on a line's id changes exactly that line. |
| CartMirror.WithQuantityAbsent | src/Context/cartContext.jsx:51-53 | `updateQuantity` on an absent id leaves the cart unchanged. |
| CartMirror.WithQuantitySets | src/Context/cartContext.jsx:51-53 | With one line per id, for an id in the cart, the amount of the id becomes exactly the quantity given. Other amounts and the one-line-per-id invariant are kept. |
| CartMirror.Removed | src/Context/cartContext.jsx:71 | The filter keeps exactly the lines with another id and none with that id. `RemovedAppend` states that it keeps their order. |
| CartMirror.RemovedSingle | src/Context/cartContext.jsx:71 | On one line, the filter drops it when it has the id and keeps it otherwise. |
| CartMirror.RemovedAppend | src/Context/cartContext.jsx:71 | The filter of two carts put together is the two filters put together, so the kept lines stay in their order. |
| CartMirror.RemovedAbsent | src/Context/cartContext.jsx:71 | Removing an id with no line leaves the cart exactly as it was. |
| CartMirror.DeletesFor | src/Context/cartContext.jsx:88-92 | One DELETE per line, in the lines' order, each for that line's id with `Bearer ${token}`. |
| CartMirror.RemovedKeepsOthers | src/Context/cartContext.jsx:71 | Every other product's amount is unchanged by `removeFromCart`. |
| CartMirror.RemovedKeepsUniqueIds | src/Context/cartContext.jsx:71 | `removeFromCart` keeps at most one line per id. |
| CartMirror.CartProvider.constructor | src/Context/cartContext.jsx:10-16 | Mount reads the stored cart, or [], and the effect stores it. |
| CartMirror.CartProvider.AddToCart | src/Context/cartContext.jsx:19-47 | Without a user, nothing changes and nothing is sent. With a user, the cart becomes AddedCart, and one POST is sent carrying the requested quantity (default 1), not the new line total, with `Bearer ${token}`. |
| CartMirror.CartProvider.UpdateQuantity | src/Context/cartContext.jsx:50-67 | The local change happens with or without a user. Only with a user is one POST of the exact quantity sent. |
| CartMirror.CartProvider.RemoveFromCart | src/Context/cartContext.jsx:70-81 | The local filter always happens. Only with a user is one DELETE for that id sent. |
| CartMirror.CartProvider.ClearCart | src/Context/cartContext.jsx:84-96 | The cart and its stored copy become empty. With a user, one DELETE per line of the previous cart is sent, in order. |
| CartPage.HandleDecrease | src/Pages/Cart.jsx:9-13 | Minus calls `updateQuantity(id, quantity - 1)` exactly when the quantity is above 1, so it never asks for less than 1. |
| CartPage.HandleIncrease | src/Pages/Cart.jsx:15 | Plus always calls `updateQuantity(id, quantity + 1)`. |
| CartPage.DecreaseAtOneDoesNothing | src/Pages/Cart.jsx:9-13 | Minus on a line at quantity 1 or below leaves the whole cart as it was. |
| CartPage.SteppingKeepsQuantitiesPositive | src/Pages/Cart.jsx:9-15 | Starting from quantities of at least 1, no sequence of stepper clicks drives any line below 1. |
| CartPage.Subtotal | src/Pages/Cart.jsx:18 | A line's subtotal is never negative for a non-negative price and quantity, and is 0 at quantity 0. |
| CartPage.TotalAmount | src/Pages/Cart.jsx:17-20 | The fold starts from 0, so an empty cart totals 0, and so does a cart whose every quantity is 0. |
| CartPage.TotalAppend | src/Pages/Cart.jsx:17-20 | The total of two carts put together is the sum of their totals. |
| CartPage.TotalUpdate | src/Pages/Cart.jsx:17-20 | Replacing one line changes the total by the difference of the two subtotals. |
| CartPage.TotalNonNegative | src/Pages/Cart.jsx:17-20 | With non-negative prices and quantities the total is never negative. |
| CartPage.SubtotalStep | src/Pages/Cart.jsx:18 | Raising a line's quantity by d raises its subtotal by d times its price. |
| CartPage.TotalStep | src/Pages/Cart.jsx:17-20 | Raising one line's quantity by d raises the total by d times that line's price. |
| CartPage.IncreaseChangesOneLine | src/Pages/Cart.jsx:15 | With one line per id, plus changes only the clicked line, by one. |
| CartPage.IncreaseRaisesTotalByPrice | src/Pages/Cart.jsx:15-20 | With one line per id, plus raises the total by exactly the clicked line's price. |
| CartPage.AddExistingRaisesTotal | src/Pages/Cart.jsx:17-20 | With one line per id, `addToCart` of a product already in the cart raises the total by quantity times that line's snapshot price. |
| CartPage.AddNewRaisesTotal | src/Pages/Cart.jsx:17-20 | `addToCart` of a new product raises the total by quantity times the product's price, or 0 when it is not a number. |
| CartPage.Render | src/Pages/Cart.jsx:22-76 | An empty cart shows the empty branch and no lines. Otherwise there is one line per item, in order, with its name, price, quantity and subtotal, and the total. |
| Sync.Deliver | Backend/server.mjs:160-237 | A request that does not authenticate leaves the table unchanged. A DELETE never moves the counter, and no request moves it by more than one. |
| Sync.DeliverAll | Backend/server.mjs:160-237 | Handling a log in order moves the counter forward by at most one per request. |
| Sync.DeliverAllAppend | Backend/server.mjs:160-237 | Handling a log is handling its first part and then the rest, from the table the first part left. |
| Sync.ServerQuantity | Backend/server.mjs:168-170 | There is a quantity exactly when some row matches the user and product, and then it is that row's quantity column. |
| Sync.FindLineSameMatches | Backend/server.mjs:168-170 | Two tables whose rows match `userId = ? AND productId = ?` at the same places give the same SELECT result. |
| Sync.FindLineAppend | Backend/server.mjs:168-170 | After an INSERT, the SELECT finds the old row if there was one, else the new row if it matches. |
| Sync.UpsertFindLine | Backend/server.mjs:168-201 | After a POST, the row found for the caller and product holds the quantity sent; on a new row it holds 1 when that quantity is falsy. Every other (user, product) gets the same answer as before. |
| Sync.PostSetsServerQuantity | Backend/server.mjs:177-201 | A signed POST leaves the server holding exactly the quantity it carried. When no row existed and that quantity is 0, it holds 1 instead. Every other (user, product) quantity is unchanged. |
| Sync.DeleteClearsServerQuantity | Backend/server.mjs:226-228 | After a signed DELETE, the caller has no row for that product. |
| Sync.ServerQuantityCons | Backend/server.mjs:168-170 | With one more row in front, the SELECT finds that row when it matches, and otherwise what it found before. |
| Sync.WithoutKeepsServerQuantity | Backend/server.mjs:226-228 | The DELETE for one (user, product) never changes what the SELECT finds for another. |
| Sync.DeleteKeepsOtherQuantities | Backend/server.mjs:226-228 | A signed DELETE leaves every other (user, product) quantity as it was. |
| Sync.AddToCartDrift | src/Context/cartContext.jsx:27-42 | With one line per id, suppose both sides hold the same amount a for a product already in the cart, and `addToCart` adds q. The browser then shows a + q and the server holds q. They agree exactly when a was 0. |
| Sync.NewLineAgreesUnlessZero | Backend/server.mjs:189-192 | For a product new to both sides, the browser keeps q and the server stores q, or 1 when q is 0. They agree exactly when q is not 0. |
| Sync.UpdateQuantityStaysInSync | src/Context/cartContext.jsx:50-63 | With one line per id, for an id in the cart, `updateQuantity` sends the exact amount it sets. Browser and server then agree exactly when the server already had a row or the amount is not 0. |
| Sync.RemoveStaysInSync | src/Context/cartContext.jsx:70-77 | After `removeFromCart` and its DELETE, neither side holds the product. |
| Sync.RowsOfNone | Backend/server.mjs:211 | A user with no rows gets an empty list from GET /cart. |
| Sync.DeletesForSplit | src/Context/cartContext.jsx:88-92 | The loop's requests are the first line's DELETE followed by the rest's. |
| Sync.ClearCartEmptiesServer | src/Context/cartContext.jsx:84-92 | Suppose every row the server holds for the user is for a product in the cart being cleared. Then after the DELETEs of `clearCart`, GET /cart returns an empty list. |
| Sync.DeliverKeepsIdsValid | Backend/server.mjs:34 | Any logged request keeps the cart ids valid. |
| Sync.DeliverAllOnlyTouchesSender | Backend/server.mjs:168-237 | A user's requests, handled in order, leave every other user's rows exactly as they were. |
| Sync.Serve | Backend/server.mjs:160-237 | Handing a logged request to the Store's POST or DELETE route changes the cart table exactly as Deliver says. |

## Left out

- Express routing, `cors()`, JSON body parsing and console logging: framework plumbing.
- bcrypt and jsonwebtoken are oracles (`Server.Bcrypt`, `Server.Jwt`). The salt, the hash function, the secret and the 2-hour expiry are not modelled. A token is valid or not at one instant, and a verified payload always carries a `userId`. Signing is deterministic, because the `iat` timestamp is not modelled: within that instant, signup and a later login for the same id return the same token. The empty token verifies to nothing, as `jwt.verify` refuses it.
- Database errors (every 500 path) and the `catch` of signup: the model assumes every SQL statement succeeds, except the INSERT that the UNIQUE email column refuses, which `Server.Store.Signup` answers with "Email already exists".
- The Paystack payment route and the checkout page: an external gateway and float arithmetic.
- Network and concurrency:
  - axios failures, async interleaving, and the read-then-write race between concurrent POST /cart requests are not modelled.
  - Requests are a sequential log that the server handles in order.
  - `clearCart` in the source stops sending DELETEs after the first one that fails. The model sends all of them.
  - Stale closures over `cart` in the React callbacks are not modelled.
- localStorage and JSON parsing beyond "key stored with this value" or "key removed".
- Non-string JSON values in request bodies (the regex coerces them) and SQLite type affinity are not modelled, including the string `req.params.productId` against the INTEGER column.
- `Number(...)` coercion, `toFixed` and float formatting: prices are integers, and a non-number price is `None`.
- Product fields other than id, name and price, which `{ ...product }` copies into a cart line.
- The alert dialog and the rethrow in `signup`/`login`: the outcome records the alert text; nothing is displayed.
- Server.Store.Login: when the password is absent, `bcrypt.compare` rejects inside the async `db.get` callback and no response is sent. Under Node's default unhandled-rejection mode (`throw`, since Node 15) the rejection then ends the server process. The model returns `NoReply` for this request and does not model the process exit.
- Sync.DeliverAll: the log reaches the server in order and without loss, which the browser does not guarantee.

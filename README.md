# Cart and account handlers of a small shop backend, in Dafny

The backend keeps a shopping cart per user against an inventory, and
registers and logs in users with a session.  This project models its request
handlers (`routes/api-routes.js`) and the login gate in front of the cart
routes (`middleware/auth.js`) as a state machine over in-memory tables:

- `inventory`: item id to stock quantity (read only here);
- `cart`: lines `(id, inventory_id, user_id, quantity)`, keyed by `id`;
- `users`: rows `(id, username, password hash)` in insertion order, usernames unique;
- the session's `loggedIn` and `userId` attributes.

Layout, one module per file:

- `db.dfy` (`Db`): the rows, the table invariant `WellFormed`, one function per SQL
  statement the handlers issue (the exact effect of its `WHERE`), and lemmas on them.
- `cart.dfy` (`Cart`), `account.dfy` (`Account`): each handler as a function from
  the state before the request to the response and the state after it.
- `cart_properties.dfy`, `account_properties.dfy`: the properties of those functions.
- `auth.dfy` (`Auth`): the gate, a function of the session.
- `sessions.dfy` (`Sessions`): the session object that login writes in place.
- `crypto.dfy` (`Crypto`): the password hash and compare primitives, uninterpreted.
- `api_routes.dfy` (`ApiRoutes`): class `Store`, whose fields are the tables, with one
  method per route; each runs the gate where the route has it, updates the fields
  statement by statement, keeps `WellFormed`, and ends in exactly the response and
  state of the matching `Cart`/`Account` function.
- `scenario.dfy`: register, log in, add to cart, set the line to zero, end to end.

Randomness and failures of outside services are parameters: the salt of the
hash, `fault` (the users INSERT fails for a reason other than the uniqueness
violation) and `saveFails` (the session store cannot save the session).

Three points of the code that the model keeps as written:

- Add-to-cart accepts a zero or negative quantity: the only check on the
  quantity is that it does not exceed the stock (`routes/api-routes.js:17`), so
  `AddToCartInserts` and `AddToCartIncrements` hold for any quantity up to it.
- The increment path does not re-check the new total against the stock
  (`routes/api-routes.js:33-37`): `AddToCartIncrements` puts no bound on the total.
- Login answers 400 on an empty result (`routes/api-routes.js:129`) before it
  reads the first row.

## Model

| member | source | states |
|---|---|---|
| Cart.AddToCart | routes/api-routes.js:9-45 | the add-to-cart handler after the gate: its guards, increment and insert; its properties are the CartProperties.AddToCart* lemmas and CartHandlersIsolateUsers |
| Cart.ClearCart | routes/api-routes.js:46-49 | the clear-cart handler after the gate; its properties are CartProperties.ClearCartRemovesOwn and ClearCartKeepsWellFormed |
| Cart.UpdateCartLine | routes/api-routes.js:53-80 | the update-line handler after the gate; its properties are the CartProperties.UpdateCartLine* lemmas and UpdateToNonPositiveIsDelete |
| Cart.DeleteCartLine | routes/api-routes.js:81-90 | the delete-line handler after the gate, answering from the affected-row count; its properties are CartProperties.DeleteCartLineOutcomes and DeleteCartLineKeepsWellFormed |
| Account.Present | routes/api-routes.js:96 | the truthiness test on a body field (also at :122): present and not the empty string |
| Account.Register | routes/api-routes.js:93-116 | the registration handler; its properties are the AccountProperties.Register* lemmas and RegisterThenLogin |
| Account.Login | routes/api-routes.js:119-150 | the login handler; its properties are the AccountProperties.Login* lemmas and RegisterThenLogin |
| Account.Logout | routes/api-routes.js:152-155 | the logout handler; its property is AccountProperties.LogoutClosesGate |
| Db.CartItemFound | routes/api-routes.js:20-32 | the LEFT JOIN lookup of the user's line for the item; used by Cart.AddToCart, whose lemmas state its effect |
| Db.IncrementQuantity | routes/api-routes.js:34-37 | the increment UPDATE on every matching line; Db.IncrementChangesOneLine states its effect |
| Db.InsertLine | routes/api-routes.js:39-42 | the cart INSERT under the next AUTO_INCREMENT id; CartProperties.AddToCartInserts states its effect |
| Db.DeleteByUser | routes/api-routes.js:47 | the DELETE of all the user's lines; CartProperties.ClearCartRemovesOwn states its effect |
| Db.SetQuantity | routes/api-routes.js:69-72 | the UPDATE by (id, user_id); Db.SetQuantityChangesOneLine states its effect |
| Db.DeleteOwned | routes/api-routes.js:82-85 | the DELETE by (id, user_id), also issued at :75; Db.DeleteOwnedRemovesOne states its effect |
| Db.JoinedStock | routes/api-routes.js:55-66 | the inventory quantity the update's LEFT JOIN pairs with the line; CartProperties.UpdateCartLineRejects states the 409 test with it |
| Db.InsertUser | routes/api-routes.js:103 | the users INSERT under the next id; AccountProperties.RegisterInserts states its effect |
| Db.SelectByUsername | routes/api-routes.js:126-127 | the SELECT by username in table order; Db.SelectEmptyIffFree, SelectAppend and SelectUnique state its properties |
| Auth.CheckAuth | middleware/auth.js:1-9 | the request proceeds exactly when `loggedIn` is strictly true; otherwise the one other outcome is a redirect to /login; a function, so it writes nothing |
| Db.IncrementChangesOneLine | routes/api-routes.js:33-37 | with one line per (user, item), the increment UPDATE changes that single line's quantity by the amount and nothing else |
| Db.SetQuantityChangesOneLine | routes/api-routes.js:68-72 | the UPDATE by (id, user_id) overwrites line cartId when the user owns it and changes nothing otherwise |
| Db.DeleteOwnedRemovesOne | routes/api-routes.js:82-87 | the DELETE by (id, user_id) removes exactly line cartId when the user owns it (one affected row) and nothing otherwise |
| Db.SelectEmptyIffFree | routes/api-routes.js:126-131 | the SELECT by username returns no row exactly when no row has that username |
| Db.SelectAppend | routes/api-routes.js:103-126 | after an INSERT, the SELECT by username returns the old result followed by the new row when it matches |
| Db.SelectUnique | routes/api-routes.js:126-132 | with unique usernames the SELECT returns exactly the one row with that name, so `users[0]` is that row |
| CartProperties.AddToCartRejects | routes/api-routes.js:12-18 | 404 exactly for an unknown item, 409 exactly when the quantity exceeds stock, tables unchanged in both; a known item within stock always gets the redirect to /cart |
| CartProperties.AddToCartIncrements | routes/api-routes.js:20-37 | with a line for (user, item) present, the add increments that one line by the quantity, inserts nothing, and does not bound the new total |
| CartProperties.AddToCartInserts | routes/api-routes.js:38-44 | with no line for (user, item), the add inserts exactly one line (item, user, quantity) under an id no line had; all other lines unchanged |
| CartProperties.AddToCartKeepsWellFormed | routes/api-routes.js:20-43 | add preserves at most one line per (user, item), fresh ids, and lines referring to existing items |
| CartProperties.AddTwiceAccumulates | routes/api-routes.js:20-44 | adding an item twice leaves one line holding the sum of both quantities |
| CartProperties.ClearCartRemovesOwn | routes/api-routes.js:46-49 | clearing removes exactly the session user's lines, keeps all others as they were, changes no other table and always redirects to /cart |
| CartProperties.ClearCartKeepsWellFormed | routes/api-routes.js:46-49 | clear preserves the table invariant |
| CartProperties.UpdateCartLineRejects | routes/api-routes.js:55-67 | 404 exactly when the user owns no line cartId, 409 exactly when the quantity exceeds the item's stock; tables unchanged in both |
| CartProperties.UpdateCartLineApplies | routes/api-routes.js:68-79 | otherwise 204, and a positive quantity overwrites the line while any other quantity deletes it |
| CartProperties.UpdateCartLineKeepsWellFormed | routes/api-routes.js:68-78 | update preserves the table invariant |
| CartProperties.UpdateToNonPositiveIsDelete | routes/api-routes.js:73-89 | an update to a quantity of zero or less has the same response and effect as the delete route, whenever the stock check passes (a negative stock below the quantity gives 409 instead) |
| CartProperties.DeleteCartLineOutcomes | routes/api-routes.js:81-90 | 204 exactly when the user owns line cartId, which alone is removed; otherwise 404 with the tables unchanged |
| CartProperties.DeleteCartLineKeepsWellFormed | routes/api-routes.js:81-85 | delete preserves the table invariant |
| CartProperties.CartHandlersIsolateUsers | routes/api-routes.js:7-90 | every cart handler writes only the cart, leaves other users' lines untouched, and every new or changed line belongs to the session user |
| AccountProperties.RegisterRejects | routes/api-routes.js:93-115 | 400 for a missing username or password, 500 for another store failure, 409 for a taken username; no row inserted in any of them |
| AccountProperties.RegisterInserts | routes/api-routes.js:99-105 | otherwise exactly one row (fresh id, username, hash of the password) is appended and the answer redirects to /login |
| AccountProperties.RegisterKeepsWellFormed | routes/api-routes.js:102-110 | registration never stores a username twice and keeps user ids fresh |
| AccountProperties.LoginRejectsUnknown | routes/api-routes.js:120-131 | a missing field or an unknown username gives 400 with the session unchanged |
| AccountProperties.LoginWithUser | routes/api-routes.js:132-149 | for the user with that name, a password that does not verify gives 400 with the session unchanged; one that does sets loggedIn true and userId to the row's id, then 500 if saving fails, else a redirect to / |
| AccountProperties.LoginFailuresIndistinguishable | routes/api-routes.js:128-138 | an unknown username and a wrong password produce the identical response and session |
| AccountProperties.LoginKeepsSessionOk | routes/api-routes.js:139-143 | after login a logged-in session always names its user, and a successful login opens the gate |
| AccountProperties.RegisterThenLogin | routes/api-routes.js:93-149 | given a sound hash primitive, a user who has just registered logs in with the same password, and the session belongs to the new row's id |
| AccountProperties.LogoutClosesGate | routes/api-routes.js:152-155 | logout always empties the session and redirects to /, after which the gate redirects to /login |
| Scenario.AliceBuysAndRemoves | routes/api-routes.js:9-150 | register, login, add two of item 5 (stock ten) and set the line to zero: 302 /login, 302 / with the session logged in, one line of quantity 2, then 204 and an empty cart |
| ApiRoutes.Store.PostCart | routes/api-routes.js:9-45 | runs the gate (redirect to /login with no change), else updates the tables in place to exactly the add-to-cart result and keeps the invariant |
| ApiRoutes.Store.DeleteCart | routes/api-routes.js:46-49 | runs the gate, else deletes the user's lines in place as clear-cart states |
| ApiRoutes.Store.PutCartLine | routes/api-routes.js:53-80 | runs the gate, else overwrites or deletes the line in place as update-cart-line states |
| ApiRoutes.Store.DeleteCartLine | routes/api-routes.js:81-90 | runs the gate, else deletes and answers from the affected-row count as delete-cart-line states |
| ApiRoutes.Store.PostUser | routes/api-routes.js:93-116 | validates, hashes and inserts in place as register states, keeping usernames unique |
| ApiRoutes.Store.PostLogin | routes/api-routes.js:119-150 | writes only the session object's fields, as login states; the tables are outside its frame |
| ApiRoutes.Store.GetLogout | routes/api-routes.js:152-155 | resets the session object and redirects to /, as logout states |

## Left out

- HTTP routing, the `res` methods and environment loading: handlers return a `Response` value (a status code or a redirect target); response bodies such as "Not found" are not modelled.
- The MySQL engine and its connection pool: tables are values with the effect of each written statement. The engine's case-insensitive string collation for `username=?` and the UNIQUE key is not modelled; usernames compare exactly.
- Store failures in the cart handlers and in login's SELECT: the source catches none (the request would fail outside these handlers), so the model has no such path. Register's INSERT failure is the `fault` parameter.
- Gaps in AUTO_INCREMENT ids after a failed INSERT: the model gives the next counter value; a new id is fresh in both.
- bcrypt's internals (salt rounds 10, hash format): `hash` and `compare` are uninterpreted, so the model cannot state that a stored hash differs from the plaintext.
- The interleaving of concurrent requests and the check-then-act race on stock: each handler is one atomic step.
- JavaScript coercion of body values: quantities are integers and username/password are optional strings whose emptiness counts as missing.
- The NULL stock of the update's LEFT JOIN when an item has vanished: inventory is never changed here, and `WellFormed` keeps every cart line pointing at an existing item, so it cannot arise; `JoinedStock` falls back to 0, the value JavaScript compares NULL as.
- Changes to inventory by external stock management: this core only reads the table.
- Session persistence and the timing of the `save`/`destroy` callbacks: the session is the object a request sees; when saving fails, its fields stay set as the handler left them, and logout resets it to the unset state.
- A cart route's use of `userId` relies on every logged-in session naming its user (`Sessions.SessionOk`), which login and logout maintain; the cart methods require it.

/**
 * The three tables the handlers touch, and the effect of each SQL statement
 * they issue, stated on values.  The `cart` table is keyed by its primary key
 * `id`; `users` keeps its rows in insertion order, because the login handler
 * takes the first row a query returns.  The AUTO_INCREMENT counters are part
 * of the state, so an inserted row gets an id no row has.
 */
module Db {

  /** A row of `cart` without its key: `(inventory_id, user_id, quantity)`. */
  datatype CartLine = CartLine(inventoryId: int, userId: int, quantity: int)

  /** A row of `users`; `password` holds the stored hash. */
  datatype UserRow = UserRow(id: int, username: string, password: string)

  /** `inventory` as item id to stock quantity (this core only reads it). */
  datatype Tables = Tables(
    inventory: map<int, int>,
    cart: map<int, CartLine>,
    users: seq<UserRow>,
    nextCartId: int,
    nextUserId: int)

  // ---------------------------------------------------------------- invariants

  /** At most one cart line per (user_id, inventory_id). */
  ghost predicate OnePerPair(cart: map<int, CartLine>) {
    forall a, b ::
      a in cart && b in cart && cart[a].userId == cart[b].userId && cart[a].inventoryId == cart[b].inventoryId
      ==> a == b
  }

  /** The `username` column is UNIQUE. */
  ghost predicate UsernamesUnique(users: seq<UserRow>) {
    forall i, j :: 0 <= i < j < |users| ==> users[i].username != users[j].username
  }

  ghost predicate WellFormed(t: Tables) {
    && OnePerPair(t.cart)
    && (forall id :: id in t.cart ==> id < t.nextCartId)
    && (forall id :: id in t.cart ==> t.cart[id].inventoryId in t.inventory)
    && UsernamesUnique(t.users)
    && (forall i, j :: 0 <= i < j < |t.users| ==> t.users[i].id < t.users[j].id)
    && (forall i :: 0 <= i < |t.users| ==> t.users[i].id < t.nextUserId)
  }

  // ------------------------------------------------------------ cart statements

  predicate IsLine(l: CartLine, inventoryId: int, userId: int) {
    l.inventoryId == inventoryId && l.userId == userId
  }

  /** Some cart line of `userId` refers to `inventoryId`. */
  predicate HasLine(cart: map<int, CartLine>, inventoryId: int, userId: int) {
    exists id :: id in cart && IsLine(cart[id], inventoryId, userId)
  }

  /**
   * `SELECT ... FROM inventory LEFT JOIN cart ON cart.inventory_id=inventory.id
   *  WHERE inventory.id=? AND cart.user_id=?` returns a row: the WHERE on a
   * cart column drops the unmatched (NULL) side of the join.
   */
  predicate CartItemFound(t: Tables, inventoryId: int, userId: int) {
    inventoryId in t.inventory && HasLine(t.cart, inventoryId, userId)
  }

  /** `UPDATE cart SET quantity=quantity+? WHERE inventory_id=? AND user_id=?` */
  function IncrementQuantity(cart: map<int, CartLine>, amount: int, inventoryId: int, userId: int): map<int, CartLine> {
    map id | id in cart ::
      if IsLine(cart[id], inventoryId, userId) then cart[id].(quantity := cart[id].quantity + amount) else cart[id]
  }

  /** `INSERT INTO cart(inventory_id, quantity, user_id) VALUES (?,?,?)` */
  function InsertLine(t: Tables, inventoryId: int, quantity: int, userId: int): Tables {
    t.(cart := t.cart[t.nextCartId := CartLine(inventoryId, userId, quantity)], nextCartId := t.nextCartId + 1)
  }

  /** `DELETE FROM cart WHERE user_id=?` */
  function DeleteByUser(cart: map<int, CartLine>, userId: int): map<int, CartLine> {
    map id | id in cart && cart[id].userId != userId :: cart[id]
  }

  /** Line `cartId` exists and belongs to `userId`: what `WHERE id=? AND user_id=?` selects. */
  predicate Owns(cart: map<int, CartLine>, cartId: int, userId: int) {
    cartId in cart && cart[cartId].userId == userId
  }

  /** `UPDATE cart SET quantity=? WHERE id=? AND user_id=?` */
  function SetQuantity(cart: map<int, CartLine>, quantity: int, cartId: int, userId: int): map<int, CartLine> {
    map id | id in cart ::
      if id == cartId && cart[id].userId == userId then cart[id].(quantity := quantity) else cart[id]
  }

  /** `DELETE FROM cart WHERE id=? AND user_id=?` */
  function DeleteOwned(cart: map<int, CartLine>, cartId: int, userId: int): map<int, CartLine> {
    map id | id in cart && !(id == cartId && cart[id].userId == userId) :: cart[id]
  }

  /**
   * `inventory.quantity` of the row `SELECT ... FROM cart LEFT JOIN inventory`
   * pairs with a cart line.  A line whose item is gone would pair with NULL, which
   * JavaScript's `>` compares as 0; WellFormed rules that case out.
   */
  function JoinedStock(t: Tables, inventoryId: int): int {
    if inventoryId in t.inventory then t.inventory[inventoryId] else 0
  }

  // ----------------------------------------------------------- users statements

  /** `SELECT * FROM users WHERE username=?`, rows in table order. */
  function SelectByUsername(users: seq<UserRow>, username: string): seq<UserRow>
    decreases |users|
  {
    if users == [] then []
    else (if users[0].username == username then [users[0]] else []) + SelectByUsername(users[1..], username)
  }

  predicate UsernameTaken(users: seq<UserRow>, username: string) {
    exists i :: 0 <= i < |users| && users[i].username == username
  }

  /** `INSERT INTO users (username, password) VALUE(?, ?)` once the UNIQUE check has passed. */
  function InsertUser(t: Tables, username: string, hashed: string): Tables {
    t.(users := t.users + [UserRow(t.nextUserId, username, hashed)], nextUserId := t.nextUserId + 1)
  }

  // --------------------------------------------------- lemmas on the statements

  /** With one line per pair, the increment UPDATE changes exactly the matching line. */
  lemma IncrementChangesOneLine(cart: map<int, CartLine>, amount: int, inventoryId: int, userId: int, id: int)
    requires OnePerPair(cart)
    requires id in cart && IsLine(cart[id], inventoryId, userId)
    ensures IncrementQuantity(cart, amount, inventoryId, userId)
         == cart[id := cart[id].(quantity := cart[id].quantity + amount)]
  {
    var r := IncrementQuantity(cart, amount, inventoryId, userId);
    var s := cart[id := cart[id].(quantity := cart[id].quantity + amount)];
    assert r.Keys == s.Keys;
    forall k | k in r ensures r[k] == s[k] {
      assert IsLine(cart[k], inventoryId, userId) ==> k == id;
    }
  }

  /** The UPDATE keyed by (id, user_id) overwrites line `cartId` if the user owns it, else nothing. */
  lemma SetQuantityChangesOneLine(cart: map<int, CartLine>, quantity: int, cartId: int, userId: int)
    ensures Owns(cart, cartId, userId) ==>
      SetQuantity(cart, quantity, cartId, userId) == cart[cartId := cart[cartId].(quantity := quantity)]
    ensures !Owns(cart, cartId, userId) ==> SetQuantity(cart, quantity, cartId, userId) == cart
  {
  }

  /**
   * The DELETE keyed by (id, user_id) removes line `cartId` if the user owns it
   * and nothing otherwise, so it reports one affected row exactly when it removed one.
   */
  lemma DeleteOwnedRemovesOne(cart: map<int, CartLine>, cartId: int, userId: int)
    ensures Owns(cart, cartId, userId) ==>
      DeleteOwned(cart, cartId, userId) == cart - {cartId} && |DeleteOwned(cart, cartId, userId)| == |cart| - 1
    ensures !Owns(cart, cartId, userId) ==> DeleteOwned(cart, cartId, userId) == cart
  {
  }

  /** The SELECT finds no row exactly when no row has that username. */
  lemma {:induction false} SelectEmptyIffFree(users: seq<UserRow>, username: string)
    ensures SelectByUsername(users, username) == [] <==> !UsernameTaken(users, username)
    decreases |users|
  {
    if users != [] {
      SelectEmptyIffFree(users[1..], username);
      if UsernameTaken(users[1..], username) {
        var i :| 0 <= i < |users[1..]| && users[1..][i].username == username;
        assert users[i + 1].username == username;
      }
      if UsernameTaken(users, username) && users[0].username != username {
        var i :| 0 <= i < |users| && users[i].username == username;
        assert users[1..][i - 1].username == username;
      }
    }
  }

  /** Appending a row to the table appends it to the SELECT's result when it matches. */
  lemma {:induction false} SelectAppend(users: seq<UserRow>, u: UserRow, username: string)
    ensures SelectByUsername(users + [u], username)
         == SelectByUsername(users, username) + (if u.username == username then [u] else [])
    decreases |users|
  {
    if users == [] {
      assert [u][1..] == [];
    } else {
      assert (users + [u])[1..] == users[1..] + [u];
      SelectAppend(users[1..], u, username);
    }
  }

  /** With unique usernames, the SELECT returns exactly the one row that has the name. */
  lemma {:induction false} SelectUnique(users: seq<UserRow>, i: int)
    requires UsernamesUnique(users)
    requires 0 <= i < |users|
    ensures SelectByUsername(users, users[i].username) == [users[i]]
    decreases |users|
  {
    var name := users[i].username;
    if i == 0 {
      forall j | 0 <= j < |users[1..]| ensures users[1..][j].username != name {
        assert users[1..][j] == users[j + 1];
      }
      SelectEmptyIffFree(users[1..], name);
    } else {
      assert users[0].username != name;
      assert users[1..][i - 1] == users[i];
      SelectUnique(users[1..], i - 1);
    }
  }
}

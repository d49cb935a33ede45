/**
 * The router: one method per route, over a store whose fields are the tables.
 * Each method changes the tables in place the way its SQL statements do, and
 * its contract ties the response and the new tables to the function of module
 * Cart or Account that the properties are proved about.  Cart routes run the
 * login gate first.
 */
module ApiRoutes {
  import opened Wrappers
  import opened Http
  import opened Sessions
  import opened Auth
  import opened Db
  import opened Crypto
  import Cart
  import Account
  import CartProperties
  import AccountProperties

  class Store {
    var inventory: map<int, int>
    var cart: map<int, CartLine>
    var users: seq<UserRow>
    var nextCartId: int
    var nextUserId: int

    /** The tables as a value: what the properties are stated about. */
    function Snapshot(): Tables
      reads this
    {
      Tables(inventory, cart, users, nextCartId, nextUserId)
    }

    ghost predicate Valid()
      reads this
    {
      WellFormed(Snapshot())
    }

    /** Empty cart and users tables over a given inventory. */
    constructor (inventory: map<int, int>)
      ensures Valid()
      ensures Snapshot() == Tables(inventory, map[], [], 1, 1)
    {
      this.inventory := inventory;
      cart := map[];
      users := [];
      nextCartId := 1;
      nextUserId := 1;
    }

    /** POST /cart */
    method PostCart(session: Session, inventoryId: int, quantity: int) returns (r: Response)
      requires Valid() && session.Valid()
      modifies this
      ensures Valid()
      ensures CheckAuth(session.State()).Respond? ==> r == Redirect("/login") && Snapshot() == old(Snapshot())
      ensures CheckAuth(session.State()).Next? ==>
        Step(r, Snapshot()) == Cart.AddToCart(old(Snapshot()), session.userId.value, inventoryId, quantity)
    {
      var gate := CheckAuth(session.State());
      if gate.Respond? {
        return gate.response;
      }
      var userId := session.userId.value;
      CartProperties.AddToCartKeepsWellFormed(Snapshot(), userId, inventoryId, quantity);
      if inventoryId !in inventory {
        return Status(404);
      }
      if quantity > inventory[inventoryId] {
        return Status(409);
      }
      if CartItemFound(Snapshot(), inventoryId, userId) {
        cart := IncrementQuantity(cart, quantity, inventoryId, userId);
      } else {
        cart := cart[nextCartId := CartLine(inventoryId, userId, quantity)];
        nextCartId := nextCartId + 1;
      }
      r := Redirect("/cart");
    }

    /** DELETE /cart */
    method DeleteCart(session: Session) returns (r: Response)
      requires Valid() && session.Valid()
      modifies this
      ensures Valid()
      ensures CheckAuth(session.State()).Respond? ==> r == Redirect("/login") && Snapshot() == old(Snapshot())
      ensures CheckAuth(session.State()).Next? ==>
        Step(r, Snapshot()) == Cart.ClearCart(old(Snapshot()), session.userId.value)
    {
      var gate := CheckAuth(session.State());
      if gate.Respond? {
        return gate.response;
      }
      var userId := session.userId.value;
      CartProperties.ClearCartKeepsWellFormed(Snapshot(), userId);
      cart := DeleteByUser(cart, userId);
      r := Redirect("/cart");
    }

    /** PUT /cart/:cartId */
    method PutCartLine(session: Session, cartId: int, quantity: int) returns (r: Response)
      requires Valid() && session.Valid()
      modifies this
      ensures Valid()
      ensures CheckAuth(session.State()).Respond? ==> r == Redirect("/login") && Snapshot() == old(Snapshot())
      ensures CheckAuth(session.State()).Next? ==>
        Step(r, Snapshot()) == Cart.UpdateCartLine(old(Snapshot()), session.userId.value, cartId, quantity)
    {
      var gate := CheckAuth(session.State());
      if gate.Respond? {
        return gate.response;
      }
      var userId := session.userId.value;
      CartProperties.UpdateCartLineKeepsWellFormed(Snapshot(), userId, cartId, quantity);
      if !Owns(cart, cartId, userId) {
        return Status(404);
      }
      var inventoryQuantity := JoinedStock(Snapshot(), cart[cartId].inventoryId);
      if quantity > inventoryQuantity {
        return Status(409);
      }
      if quantity > 0 {
        cart := SetQuantity(cart, quantity, cartId, userId);
      } else {
        cart := DeleteOwned(cart, cartId, userId);
      }
      r := Status(204);
    }

    /** DELETE /cart/:cartId */
    method DeleteCartLine(session: Session, cartId: int) returns (r: Response)
      requires Valid() && session.Valid()
      modifies this
      ensures Valid()
      ensures CheckAuth(session.State()).Respond? ==> r == Redirect("/login") && Snapshot() == old(Snapshot())
      ensures CheckAuth(session.State()).Next? ==>
        Step(r, Snapshot()) == Cart.DeleteCartLine(old(Snapshot()), session.userId.value, cartId)
    {
      var gate := CheckAuth(session.State());
      if gate.Respond? {
        return gate.response;
      }
      var userId := session.userId.value;
      CartProperties.DeleteCartLineKeepsWellFormed(Snapshot(), userId, cartId);
      var before := |cart|;
      cart := DeleteOwned(cart, cartId, userId);
      var affectedRows := before - |cart|;
      if affectedRows == 1 {
        r := Status(204);
      } else {
        r := Status(404);
      }
    }

    /** POST /user */
    method PostUser(h: Hasher, salt: nat, username: Option<string>, password: Option<string>, fault: bool)
      returns (r: Response)
      requires Valid()
      modifies this
      ensures Valid()
      ensures Step(r, Snapshot()) == Account.Register(old(Snapshot()), h, salt, username, password, fault)
    {
      AccountProperties.RegisterKeepsWellFormed(Snapshot(), h, salt, username, password, fault);
      if !Account.Present(username) || !Account.Present(password) {
        return Status(400);
      }
      var hashedPassword := h.hash(password.value, salt);
      if fault {
        return Status(500);
      }
      if UsernameTaken(users, username.value) {
        return Status(409);
      }
      users := users + [UserRow(nextUserId, username.value, hashedPassword)];
      nextUserId := nextUserId + 1;
      r := Redirect("/login");
    }

    /** POST /login: writes the session's fields, never the tables. */
    method PostLogin(session: Session, h: Hasher, username: Option<string>, password: Option<string>, saveFails: bool)
      returns (r: Response)
      requires session.Valid()
      modifies session
      ensures session.Valid()
      ensures Step(r, session.State()) == Account.Login(Snapshot(), old(session.State()), h, username, password, saveFails)
    {
      AccountProperties.LoginKeepsSessionOk(Snapshot(), session.State(), h, username, password, saveFails);
      if !Account.Present(username) || !Account.Present(password) {
        return Status(400);
      }
      var found := SelectByUsername(users, username.value);
      if |found| == 0 {
        return Status(400);
      }
      var user := found[0];
      var passwordsMatch := h.compare(password.value, user.password);
      if !passwordsMatch {
        return Status(400);
      }
      session.loggedIn := Some(true);
      session.userId := Some(user.id);
      if saveFails {
        return Status(500);
      }
      r := Redirect("/");
    }

    /** GET /logout */
    method GetLogout(session: Session) returns (r: Response)
      modifies session
      ensures session.Valid()
      ensures Step(r, session.State()) == Account.Logout(old(session.State()))
    {
      session.loggedIn := None;
      session.userId := None;
      r := Redirect("/");
    }
  }
}

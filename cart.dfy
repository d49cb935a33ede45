/**
 * The four cart handlers, as functions from the tables before the request to
 * the response and the tables after it.  Each takes the id of the session user:
 * the gate in front of them (Auth.CheckAuth) has already let the request through.
 */
module Cart {
  import opened Http
  import opened Db

  /**
   * POST /cart: 404 for an unknown item, 409 when the requested quantity
   * exceeds the stock; otherwise the user's line for the item is incremented,
   * or a new line is inserted when there is none.  The new total is not
   * checked against the stock, and the quantity is not checked to be positive.
   */
  function AddToCart(t: Tables, userId: int, inventoryId: int, quantity: int): Step<Tables> {
    if inventoryId !in t.inventory then Step(Status(404), t)
    else if quantity > t.inventory[inventoryId] then Step(Status(409), t)
    else if CartItemFound(t, inventoryId, userId) then
      Step(Redirect("/cart"), t.(cart := IncrementQuantity(t.cart, quantity, inventoryId, userId)))
    else
      Step(Redirect("/cart"), InsertLine(t, inventoryId, quantity, userId))
  }

  /** DELETE /cart: remove every line of the user, then redirect to the cart. */
  function ClearCart(t: Tables, userId: int): Step<Tables> {
    Step(Redirect("/cart"), t.(cart := DeleteByUser(t.cart, userId)))
  }

  /**
   * PUT /cart/:cartId: 404 when the user owns no line `cartId`, 409 when the
   * quantity exceeds the item's stock; otherwise a positive quantity overwrites
   * the line and any other quantity deletes it, and the answer is 204.
   */
  function UpdateCartLine(t: Tables, userId: int, cartId: int, quantity: int): Step<Tables> {
    if !Owns(t.cart, cartId, userId) then Step(Status(404), t)
    else if quantity > JoinedStock(t, t.cart[cartId].inventoryId) then Step(Status(409), t)
    else if quantity > 0 then Step(Status(204), t.(cart := SetQuantity(t.cart, quantity, cartId, userId)))
    else Step(Status(204), t.(cart := DeleteOwned(t.cart, cartId, userId)))
  }

  /**
   * DELETE /cart/:cartId: run the DELETE and answer 204 when it affected exactly
   * one row, 404 otherwise.
   */
  function DeleteCartLine(t: Tables, userId: int, cartId: int): Step<Tables> {
    var cart' := DeleteOwned(t.cart, cartId, userId);
    var affectedRows := |t.cart| - |cart'|;
    Step(if affectedRows == 1 then Status(204) else Status(404), t.(cart := cart'))
  }
}

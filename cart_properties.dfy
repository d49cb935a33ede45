/** What the cart handlers guarantee, proved about the functions of module Cart. */
module CartProperties {
  import opened Http
  import opened Db
  import opened Cart

  /** Only the cart table is written; inventory, users and the user counter stay as they were. */
  ghost predicate OnlyCartChanged(before: Tables, after: Tables) {
    after.inventory == before.inventory && after.users == before.users && after.nextUserId == before.nextUserId
  }

  /**
   * Lines of other users are untouched, and every line that is new or changed
   * belongs to `userId`.
   */
  ghost predicate OthersUntouched(before: map<int, CartLine>, after: map<int, CartLine>, userId: int) {
    && (forall id :: id in before && before[id].userId != userId ==> id in after && after[id] == before[id])
    && (forall id :: id in after && !(id in before && before[id] == after[id]) ==> after[id].userId == userId)
  }

  // ------------------------------------------------------------------ POST /cart

  /** 404 exactly for an unknown item, 409 exactly when the stock is too small; either leaves the tables unchanged. */
  lemma AddToCartRejects(t: Tables, userId: int, inventoryId: int, quantity: int)
    ensures var r := AddToCart(t, userId, inventoryId, quantity);
      && (r.response == Status(404) <==> inventoryId !in t.inventory)
      && (r.response == Status(409) <==> inventoryId in t.inventory && quantity > t.inventory[inventoryId])
      && (r.response.Status? ==> r.after == t)
      && (inventoryId in t.inventory && quantity <= t.inventory[inventoryId] ==> r.response == Redirect("/cart"))
  {
  }

  /**
   * With a line for (user, item) already there, the add increments that one line
   * by the requested amount and inserts nothing, whatever the new total is.
   */
  lemma AddToCartIncrements(t: Tables, userId: int, inventoryId: int, quantity: int, id: int)
    requires WellFormed(t)
    requires id in t.cart && IsLine(t.cart[id], inventoryId, userId)
    requires inventoryId in t.inventory && quantity <= t.inventory[inventoryId]
    ensures AddToCart(t, userId, inventoryId, quantity)
         == Step(Redirect("/cart"), t.(cart := t.cart[id := t.cart[id].(quantity := t.cart[id].quantity + quantity)]))
  {
    IncrementChangesOneLine(t.cart, quantity, inventoryId, userId, id);
  }

  /** With no line for (user, item), the add inserts exactly one line under an id no line had. */
  lemma AddToCartInserts(t: Tables, userId: int, inventoryId: int, quantity: int)
    requires WellFormed(t)
    requires inventoryId in t.inventory && quantity <= t.inventory[inventoryId]
    requires !HasLine(t.cart, inventoryId, userId)
    ensures t.nextCartId !in t.cart
    ensures AddToCart(t, userId, inventoryId, quantity)
         == Step(Redirect("/cart"),
                 t.(cart := t.cart[t.nextCartId := CartLine(inventoryId, userId, quantity)], nextCartId := t.nextCartId + 1))
  {
  }

  lemma AddToCartKeepsWellFormed(t: Tables, userId: int, inventoryId: int, quantity: int)
    requires WellFormed(t)
    ensures WellFormed(AddToCart(t, userId, inventoryId, quantity).after)
  {
  }

  /** Adding the same item twice accumulates both quantities in a single line. */
  lemma AddTwiceAccumulates(t: Tables, userId: int, inventoryId: int, first: int, second: int)
    requires WellFormed(t)
    requires !HasLine(t.cart, inventoryId, userId)
    requires inventoryId in t.inventory && first <= t.inventory[inventoryId] && second <= t.inventory[inventoryId]
    ensures var once := AddToCart(t, userId, inventoryId, first);
            var twice := AddToCart(once.after, userId, inventoryId, second);
            && twice.response == Redirect("/cart")
            && twice.after == t.(cart := t.cart[t.nextCartId := CartLine(inventoryId, userId, first + second)],
                                 nextCartId := t.nextCartId + 1)
  {
    var once := AddToCart(t, userId, inventoryId, first);
    AddToCartInserts(t, userId, inventoryId, first);
    AddToCartKeepsWellFormed(t, userId, inventoryId, first);
    AddToCartIncrements(once.after, userId, inventoryId, second, t.nextCartId);
  }

  // ---------------------------------------------------------------- DELETE /cart

  /** Clearing removes exactly the user's lines, keeps every other line as it was, and always redirects. */
  lemma ClearCartRemovesOwn(t: Tables, userId: int)
    ensures var r := ClearCart(t, userId);
      && r.response == Redirect("/cart")
      && (forall id :: id in r.after.cart <==> id in t.cart && t.cart[id].userId != userId)
      && (forall id :: id in r.after.cart ==> r.after.cart[id] == t.cart[id])
      && r.after == t.(cart := r.after.cart)
  {
  }

  lemma ClearCartKeepsWellFormed(t: Tables, userId: int)
    requires WellFormed(t)
    ensures WellFormed(ClearCart(t, userId).after)
  {
  }

  // ----------------------------------------------------------- PUT /cart/:cartId

  /** 404 exactly when the user owns no such line, 409 exactly when the stock is too small; both change nothing. */
  lemma UpdateCartLineRejects(t: Tables, userId: int, cartId: int, quantity: int)
    requires WellFormed(t)
    ensures var r := UpdateCartLine(t, userId, cartId, quantity);
      && (r.response == Status(404) <==> !Owns(t.cart, cartId, userId))
      && (r.response == Status(409) <==>
            Owns(t.cart, cartId, userId) && quantity > t.inventory[t.cart[cartId].inventoryId])
      && (r.response != Status(204) ==> r.after == t)
  {
  }

  /** Otherwise a positive quantity overwrites the line, any other quantity deletes it, and the answer is 204. */
  lemma UpdateCartLineApplies(t: Tables, userId: int, cartId: int, quantity: int)
    requires WellFormed(t)
    requires Owns(t.cart, cartId, userId) && quantity <= t.inventory[t.cart[cartId].inventoryId]
    ensures quantity > 0 ==>
      UpdateCartLine(t, userId, cartId, quantity)
      == Step(Status(204), t.(cart := t.cart[cartId := t.cart[cartId].(quantity := quantity)]))
    ensures quantity <= 0 ==>
      UpdateCartLine(t, userId, cartId, quantity) == Step(Status(204), t.(cart := t.cart - {cartId}))
  {
    SetQuantityChangesOneLine(t.cart, quantity, cartId, userId);
    DeleteOwnedRemovesOne(t.cart, cartId, userId);
  }

  lemma UpdateCartLineKeepsWellFormed(t: Tables, userId: int, cartId: int, quantity: int)
    requires WellFormed(t)
    ensures WellFormed(UpdateCartLine(t, userId, cartId, quantity).after)
  {
  }

  /** An update to a non-positive quantity has the same response and effect as the delete route. */
  lemma UpdateToNonPositiveIsDelete(t: Tables, userId: int, cartId: int, quantity: int)
    requires WellFormed(t)
    requires quantity <= 0
    requires Owns(t.cart, cartId, userId) ==> quantity <= t.inventory[t.cart[cartId].inventoryId]
    ensures UpdateCartLine(t, userId, cartId, quantity) == DeleteCartLine(t, userId, cartId)
  {
    DeleteOwnedRemovesOne(t.cart, cartId, userId);
  }

  // -------------------------------------------------------- DELETE /cart/:cartId

  /**
   * 204 exactly when the user owns line `cartId`, and then that line alone is
   * gone; otherwise 404 and the tables are unchanged.
   */
  lemma DeleteCartLineOutcomes(t: Tables, userId: int, cartId: int)
    ensures var r := DeleteCartLine(t, userId, cartId);
      && (r.response == Status(204) <==> Owns(t.cart, cartId, userId))
      && (Owns(t.cart, cartId, userId) ==> r.after == t.(cart := t.cart - {cartId}))
      && (!Owns(t.cart, cartId, userId) ==> r == Step(Status(404), t))
  {
    DeleteOwnedRemovesOne(t.cart, cartId, userId);
  }

  lemma DeleteCartLineKeepsWellFormed(t: Tables, userId: int, cartId: int)
    requires WellFormed(t)
    ensures WellFormed(DeleteCartLine(t, userId, cartId).after)
  {
  }

  // ------------------------------------------------------------------ isolation

  /** No cart handler writes anything but the cart, or touches another user's lines. */
  lemma CartHandlersIsolateUsers(t: Tables, userId: int, inventoryId: int, cartId: int, quantity: int)
    requires WellFormed(t)
    ensures var r := AddToCart(t, userId, inventoryId, quantity);
      OnlyCartChanged(t, r.after) && OthersUntouched(t.cart, r.after.cart, userId)
    ensures var r := ClearCart(t, userId);
      OnlyCartChanged(t, r.after) && OthersUntouched(t.cart, r.after.cart, userId)
    ensures var r := UpdateCartLine(t, userId, cartId, quantity);
      OnlyCartChanged(t, r.after) && OthersUntouched(t.cart, r.after.cart, userId)
    ensures var r := DeleteCartLine(t, userId, cartId);
      OnlyCartChanged(t, r.after) && OthersUntouched(t.cart, r.after.cart, userId)
  {
  }
}

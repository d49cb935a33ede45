/**
 * A whole session, request by request: register alice, log her in, put two of
 * item 5 (ten in stock) in her cart, then set that line to zero.
 */
module Scenario {
  import opened Wrappers
  import opened Http
  import opened Sessions
  import opened Auth
  import opened Db
  import opened Crypto
  import opened Cart
  import opened Account

  lemma AliceBuysAndRemoves(h: Hasher, salt: nat)
    requires Sound(h)
    ensures
      var t0 := Tables(map[5 := 10], map[], [], 1, 1);
      var reg := Register(t0, h, salt, Some("alice"), Some("pw1"), false);
      var login := Login(reg.after, Blank, h, Some("alice"), Some("pw1"), false);
      var add := AddToCart(reg.after, 1, 5, 2);
      var put := UpdateCartLine(add.after, 1, 1, 0);
      && reg.response == Redirect("/login")
      && login == Step(Redirect("/"), SessionState(Some(true), Some(1)))
      && CheckAuth(login.after) == Next
      && add.response == Redirect("/cart") && add.after.cart == map[1 := CartLine(5, 1, 2)]
      && put.response == Status(204) && put.after.cart == map[]
  {
  }
}

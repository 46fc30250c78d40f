/** The checkout transaction: a cart becomes an order snapshot, the sold
    counters grow, and the cart is emptied. */
module Checkout {
  import opened Base
  import opened Entities
  import opened Pricing
  import opened Orders

  /** Σ quantity over the cart lines for `menuId`, whatever their options. */
  function QuantityOf(cart: seq<CartLine>, menuId: string): int {
    if |cart| == 0 then 0
    else
      QuantityOf(cart[..|cart| - 1], menuId)
        + (if cart[|cart| - 1].menuId == menuId then cart[|cart| - 1].quantity else 0)
  }

  /** The catalog after each cart line has added its quantity to its entry's
      sold counter, line by line: every entry grows by the total quantity of
      its lines and nothing else changes. */
  function AddSold(catalog: Catalog, cart: seq<CartLine>): (c: Catalog)
    requires Resolvable(catalog, cart)
    ensures c.Keys == catalog.Keys
    ensures forall m :: m in catalog ==>
      c[m] == catalog[m].(sold := catalog[m].sold + QuantityOf(cart, m))
  {
    if |cart| == 0 then catalog
    else
      var before := AddSold(catalog, cart[..|cart| - 1]);
      var line := cart[|cart| - 1];
      before[line.menuId := before[line.menuId].(sold := before[line.menuId].sold + line.quantity)]
  }

  /** Confirming the purchase of `email`'s cart at time `now`. A missing user
      or a line whose menu entry is gone fails before anything is written.
      Otherwise exactly one order is appended, numbered one more than the
      stored orders, with status "NEW", the cart's lines frozen at current
      catalog values and a total of Σ price × quantity (no tax, no discount);
      each entry's sold counter grows by the quantity bought and the cart empties. */
  function ConfirmPurchase(store: Store, email: string, now: int): (s: Step<Order>)
    ensures email !in store.users ==> s == Step(store, Err(UserNotFound))
    ensures email in store.users && !Resolvable(store.catalog, store.users[email].cart) ==>
      s == Step(store, Err(StaleMenuReference))
    ensures s.reply.Ok? <==> email in store.users && Resolvable(store.catalog, store.users[email].cart)
    ensures s.reply.Ok? ==>
      var cart := store.users[email].cart;
      var o := s.reply.value;
      && s.store.orders == store.orders + [o]
      && o.orderId == |store.orders| + 1
      && o.userEmail == email
      && o.status == "NEW"
      && o.timestamp == now
      && |o.items| == |cart|
      && (forall j :: 0 <= j < |cart| ==>
            o.items[j].line == cart[j] && o.items[j].price == store.catalog[cart[j].menuId].price
            && o.items[j].name == store.catalog[cart[j].menuId].name
            && o.items[j].image == store.catalog[cart[j].menuId].image)
      && o.totalPrice == ItemsValue(o.items)
      && s.store.catalog.Keys == store.catalog.Keys
      && (forall m :: m in store.catalog ==>
            s.store.catalog[m] == store.catalog[m].(sold := store.catalog[m].sold + QuantityOf(cart, m)))
      && s.store.users == store.users[email := store.users[email].(cart := [])]
      && s.store.reviews == store.reviews
      && s.store.vouchers == store.vouchers
  {
    if email !in store.users then Step(store, Err(UserNotFound))
    else
      var cart := store.users[email].cart;
      if !Resolvable(store.catalog, cart) then Step(store, Err(StaleMenuReference))
      else
        var items := Snapshot(store.catalog, cart);
        var order := Order(NextOrderId(store.orders), email, items, ItemsValue(items), "NEW", now);
        var store' := store.(
          orders := store.orders + [order],
          catalog := AddSold(store.catalog, cart),
          users := store.users[email := store.users[email].(cart := [])]);
        Step(store', Ok(order))
  }

  /** A checkout of an empty cart still records an order, worth zero, and
      leaves the catalog untouched. */
  lemma EmptyCartGivesZeroOrder(store: Store, email: string, now: int)
    requires email in store.users && store.users[email].cart == []
    ensures var s := ConfirmPurchase(store, email, now);
      s.reply.Ok? && s.reply.value.totalPrice == 0 && s.reply.value.items == []
      && s.store.catalog == store.catalog
  {
    var s := ConfirmPurchase(store, email, now);
    assert s.reply.value.items == [];
    forall m | m in store.catalog ensures s.store.catalog[m] == store.catalog[m] {
    }
  }

  /** While no order has been deleted, checkouts keep numbering orders 1, 2, 3, ... */
  lemma ConfirmPurchaseKeepsIdsDense(store: Store, email: string, now: int)
    requires DenseIds(store.orders)
    ensures DenseIds(ConfirmPurchase(store, email, now).store.orders)
  {
  }

  /** After a successful checkout the user's cart is empty, so a second
      checkout right away records a zero-value order numbered one higher. */
  lemma SecondCheckoutIsEmpty(store: Store, email: string, now: int, later: int)
    requires ConfirmPurchase(store, email, now).reply.Ok?
    ensures var s1 := ConfirmPurchase(store, email, now);
      var s2 := ConfirmPurchase(s1.store, email, later);
      s2.reply.Ok? && s2.reply.value.totalPrice == 0
      && s2.reply.value.orderId == s1.reply.value.orderId + 1
  {
    var s1 := ConfirmPurchase(store, email, now);
    EmptyCartGivesZeroOrder(s1.store, email, later);
  }
}

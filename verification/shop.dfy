/** The cart handlers at the level of the whole store: the current user's
    cart is read, changed by the cart engine and written back whole. */
module Shop {
  import opened Base
  import opened Entities
  import opened Cart
  import opened Pricing
  import opened Checkout

  /** `after` differs from `before` at most in the cart of `email`, which is `cart`. */
  predicate OnlyCartChanged(before: Store, after: Store, email: string, cart: seq<CartLine>)
    requires email in before.users
  {
    && after.users == before.users[email := before.users[email].(cart := cart)]
    && after.catalog == before.catalog
    && after.orders == before.orders
    && after.reviews == before.reviews
    && after.vouchers == before.vouchers
  }

  /** Every user's cart is well formed: one line per choice, distinct line ids. */
  predicate CartsWellFormed(store: Store) {
    forall e :: e in store.users ==> WellFormed(store.users[e].cart)
  }

  function WithCart(store: Store, email: string, cart: seq<CartLine>): Store
    requires email in store.users
  {
    store.(users := store.users[email := store.users[email].(cart := cart)])
  }

  /** Adding to the current user's cart; an unknown user is refused with nothing written. */
  function AddToCartRequest(store: Store, email: string, freshId: string, choice: Choice, quantity: int)
    : (s: Step<()>)
    ensures email !in store.users ==> s == Step(store, Err(UserNotFound))
    ensures email in store.users ==>
      s.reply.Ok? && OnlyCartChanged(store, s.store, email, AddToCart(store.users[email].cart, freshId, choice, quantity))
  {
    if email !in store.users then Step(store, Err(UserNotFound))
    else Step(WithCart(store, email, AddToCart(store.users[email].cart, freshId, choice, quantity)), Ok(()))
  }

  datatype QuantityReply = QuantityReply(breakdown: Breakdown, itemPrice: int, itemTotal: int)

  /** Setting a quantity. The updated cart is written before anything is
      priced, so a stale line or an unknown `menuId` fails the reply but the
      write stays; the reply otherwise holds the new cart's breakdown and the
      menu entry's price times the requested quantity. */
  function UpdateQuantityRequest(store: Store, email: string, menuId: string, quantity: int)
    : (s: Step<QuantityReply>)
    ensures email !in store.users ==> s == Step(store, Err(UserNotFound))
    ensures email in store.users ==>
      var cart := UpdateQuantity(store.users[email].cart, menuId, quantity);
      && OnlyCartChanged(store, s.store, email, cart)
      && (s.reply.Ok? <==> Resolvable(store.catalog, cart) && menuId in store.catalog)
      && (s.reply.Err? ==> s.reply.error == StaleMenuReference)
      && (s.reply.Ok? ==>
            && Ok(s.reply.value.breakdown) == CartBreakdown(store.catalog, cart)
            && s.reply.value.itemPrice == store.catalog[menuId].price
            && s.reply.value.itemTotal == quantity * store.catalog[menuId].price)
  {
    if email !in store.users then Step(store, Err(UserNotFound))
    else
      var cart := UpdateQuantity(store.users[email].cart, menuId, quantity);
      var written := WithCart(store, email, cart);
      match CartBreakdown(store.catalog, cart)
      case Err(e) => Step(written, Err(e))
      case Ok(b) =>
        if menuId !in store.catalog then Step(written, Err(StaleMenuReference))
        else
          var price := store.catalog[menuId].price;
          Step(written, Ok(QuantityReply(b, price, quantity * price)))
  }

  /** Removing lines by line id. The removal is addressed to the user's
      record, so an unknown user matches nothing and the reply is still success. */
  function RemoveItemRequest(store: Store, email: string, itemId: string): (s: Step<()>)
    ensures s.reply == Ok(())
    ensures email !in store.users ==> s.store == store
    ensures email in store.users ==>
      OnlyCartChanged(store, s.store, email, RemoveItem(store.users[email].cart, itemId))
  {
    if email !in store.users then Step(store, Ok(()))
    else Step(WithCart(store, email, RemoveItem(store.users[email].cart, itemId)), Ok(()))
  }

  /** The cart page's price summary for the current user. */
  function ViewCart(store: Store, email: string): (r: Result<Breakdown>)
    ensures email !in store.users ==> r == Err(UserNotFound)
    ensures email in store.users ==> r == CartBreakdown(store.catalog, store.users[email].cart)
  {
    if email !in store.users then Err(UserNotFound)
    else CartBreakdown(store.catalog, store.users[email].cart)
  }

  /** Applying a voucher code to the current user's cart; nothing is written. */
  function ApplyVoucherRequest(store: Store, email: string, code: string): (r: Result<VoucherReply>)
    ensures email !in store.users ==> r == Err(UserNotFound)
    ensures email in store.users ==> r == ApplyVoucher(store.catalog, store.users[email].cart, store.vouchers, code)
  {
    if email !in store.users then Err(UserNotFound)
    else ApplyVoucher(store.catalog, store.users[email].cart, store.vouchers, code)
  }

  /** The quantity update's reply shows the same breakdown the cart page
      then shows for the written cart. */
  lemma QuantityReplyMatchesCartPage(store: Store, email: string, menuId: string, quantity: int)
    ensures var s := UpdateQuantityRequest(store, email, menuId, quantity);
      s.reply.Ok? ==> ViewCart(s.store, email) == Ok(s.reply.value.breakdown)
  {
  }

  /** The voucher preview succeeds exactly when the cart page does, and
      starts from the same subtotal; the discount depends on the code alone,
      not on whose cart it is applied to. */
  lemma VoucherPreviewMatchesCartPage(store: Store, email: string, other: string, code: string)
    ensures ApplyVoucherRequest(store, email, code).Ok? <==> ViewCart(store, email).Ok?
    ensures ApplyVoucherRequest(store, email, code).Ok? ==>
      ApplyVoucherRequest(store, email, code).value.subtotal == ViewCart(store, email).value.subtotal
    ensures ApplyVoucherRequest(store, email, code).Ok? && ApplyVoucherRequest(store, other, code).Ok? ==>
      ApplyVoucherRequest(store, email, code).value.discount == ApplyVoucherRequest(store, other, code).value.discount
  {
  }

  lemma WithCartKeepsWellFormed(store: Store, email: string, cart: seq<CartLine>)
    requires CartsWellFormed(store) && email in store.users && WellFormed(cart)
    ensures CartsWellFormed(WithCart(store, email, cart))
  {
  }

  lemma AddToCartRequestKeepsWellFormed(store: Store, email: string, freshId: string, choice: Choice, quantity: int)
    requires CartsWellFormed(store)
    requires email in store.users ==> !HasItemId(store.users[email].cart, freshId)
    ensures CartsWellFormed(AddToCartRequest(store, email, freshId, choice, quantity).store)
  {
    if email in store.users {
      var cart := store.users[email].cart;
      AddToCartKeepsWellFormed(cart, freshId, choice, quantity);
      WithCartKeepsWellFormed(store, email, AddToCart(cart, freshId, choice, quantity));
    }
  }

  lemma UpdateQuantityRequestKeepsWellFormed(store: Store, email: string, menuId: string, quantity: int)
    requires CartsWellFormed(store)
    ensures CartsWellFormed(UpdateQuantityRequest(store, email, menuId, quantity).store)
  {
    if email in store.users {
      var cart := store.users[email].cart;
      UpdateQuantityKeepsWellFormed(cart, menuId, quantity);
      WithCartKeepsWellFormed(store, email, UpdateQuantity(cart, menuId, quantity));
    }
  }

  lemma RemoveItemRequestKeepsWellFormed(store: Store, email: string, itemId: string)
    requires CartsWellFormed(store)
    ensures CartsWellFormed(RemoveItemRequest(store, email, itemId).store)
  {
    if email in store.users {
      var cart := store.users[email].cart;
      RemoveItemKeepsWellFormed(cart, itemId);
      WithCartKeepsWellFormed(store, email, RemoveItem(cart, itemId));
    }
  }

  lemma ConfirmPurchaseKeepsWellFormed(store: Store, email: string, now: int)
    requires CartsWellFormed(store)
    ensures CartsWellFormed(ConfirmPurchase(store, email, now).store)
  {
    var s := ConfirmPurchase(store, email, now);
    if s.reply.Ok? {
      WithCartKeepsWellFormed(store, email, []);
      assert s.store.users == WithCart(store, email, []).users;
    }
  }

  /** Every cart handler and checkout keep every user's cart well formed,
      provided the generated line id is new to the cart it joins. */
  lemma HandlersKeepCartsWellFormed(store: Store, email: string, freshId: string, choice: Choice,
                                    quantity: int, menuId: string, itemId: string, now: int)
    requires CartsWellFormed(store)
    requires email in store.users ==> !HasItemId(store.users[email].cart, freshId)
    ensures CartsWellFormed(AddToCartRequest(store, email, freshId, choice, quantity).store)
    ensures CartsWellFormed(UpdateQuantityRequest(store, email, menuId, quantity).store)
    ensures CartsWellFormed(RemoveItemRequest(store, email, itemId).store)
    ensures CartsWellFormed(ConfirmPurchase(store, email, now).store)
  {
    AddToCartRequestKeepsWellFormed(store, email, freshId, choice, quantity);
    UpdateQuantityRequestKeepsWellFormed(store, email, menuId, quantity);
    RemoveItemRequestKeepsWellFormed(store, email, itemId);
    ConfirmPurchaseKeepsWellFormed(store, email, now);
  }
}

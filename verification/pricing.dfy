/** The pricing engine: line snapshots, subtotal, the flat 10% tax of the
    stored-cart path, and the voucher rule. */
module Pricing {
  import opened Base
  import opened Entities

  /** Every line of the cart names a menu entry the catalog has. */
  predicate Resolvable(catalog: Catalog, cart: seq<CartLine>) {
    forall j :: 0 <= j < |cart| ==> cart[j].menuId in catalog
  }

  /** A line joined with its catalog entry's current name, price and image. */
  function Freeze(catalog: Catalog, line: CartLine): OrderLine
    requires line.menuId in catalog
  {
    var m := catalog[line.menuId];
    OrderLine(line, m.name, m.price, m.image)
  }

  /** The cart with every line resolved against the catalog, in cart order. */
  function Snapshot(catalog: Catalog, cart: seq<CartLine>): (items: seq<OrderLine>)
    requires Resolvable(catalog, cart)
    ensures |items| == |cart|
    ensures forall j :: 0 <= j < |cart| ==> items[j] == Freeze(catalog, cart[j])
  {
    seq(|cart|, j requires 0 <= j < |cart| => Freeze(catalog, cart[j]))
  }

  function LineValue(item: OrderLine): int {
    item.price * item.line.quantity
  }

  /** Σ price × quantity over `items`, accumulated front to back. */
  function ItemsValue(items: seq<OrderLine>): int {
    if |items| == 0 then 0
    else ItemsValue(items[..|items| - 1]) + LineValue(items[|items| - 1])
  }

  /** Python's int(x * 0.10) on an integer x: a tenth of x, truncated toward zero. */
  function TenPercent(x: int): (t: int)
    ensures 0 <= x ==> 0 <= 10 * t <= x < 10 * t + 10
    ensures x < 0 ==> x <= 10 * t <= 0 && 10 * t - 10 < x
  {
    if 0 <= x then x / 10 else -((-x) / 10)
  }

  datatype Breakdown = Breakdown(subtotal: int, discount: int, tax: int, total: int)

  /** The price summary the cart page and the quantity update show: no
      discount, a tax of a tenth of the subtotal, and their sum as the total. */
  function CartBreakdown(catalog: Catalog, cart: seq<CartLine>): (r: Result<Breakdown>)
    ensures r.Ok? <==> Resolvable(catalog, cart)
    ensures r.Err? ==> r.error == StaleMenuReference
    ensures r.Ok? ==>
      && r.value.subtotal == ItemsValue(Snapshot(catalog, cart))
      && r.value.discount == 0
      && r.value.tax == TenPercent(r.value.subtotal)
      && r.value.total == r.value.subtotal - r.value.discount + r.value.tax
  {
    if Resolvable(catalog, cart) then
      var subtotal := ItemsValue(Snapshot(catalog, cart));
      var tax := TenPercent(subtotal);
      Ok(Breakdown(subtotal, 0, tax, subtotal - 0 + tax))
    else Err(StaleMenuReference)
  }

  /** The loop the cart handlers run: each line is resolved in turn and the
      first line whose entry is missing aborts the request. */
  method CartSubtotal(catalog: Catalog, cart: seq<CartLine>) returns (r: Result<int>)
    ensures r.Ok? <==> Resolvable(catalog, cart)
    ensures r.Err? ==> r.error == StaleMenuReference
    ensures r.Ok? ==> r.value == ItemsValue(Snapshot(catalog, cart))
  {
    var total := 0;
    var i := 0;
    while i < |cart|
      invariant 0 <= i <= |cart|
      invariant Resolvable(catalog, cart[..i])
      invariant total == ItemsValue(Snapshot(catalog, cart[..i]))
    {
      if cart[i].menuId !in catalog {
        return Err(StaleMenuReference);
      }
      var m := catalog[cart[i].menuId];
      ghost var before := Snapshot(catalog, cart[..i]);
      ghost var after := Snapshot(catalog, cart[..i + 1]);
      assert after[..i] == before;
      assert after[i] == Freeze(catalog, cart[i]);
      total := total + m.price * cart[i].quantity;
      i := i + 1;
    }
    assert cart[..i] == cart;
    return Ok(total);
  }

  /** Σ over lines with non-negative prices and quantities is non-negative. */
  lemma {:induction false} ItemsValueNonNegative(items: seq<OrderLine>)
    requires forall j :: 0 <= j < |items| ==> items[j].price >= 0 && items[j].line.quantity >= 0
    ensures ItemsValue(items) >= 0
    decreases |items|
  {
    if |items| > 0 {
      ItemsValueNonNegative(items[..|items| - 1]);
    }
  }

  /** With non-negative prices and quantities the tax is exactly subtotal / 10
      and the total lies between the subtotal and 110% of it. */
  lemma CartTotalBounds(catalog: Catalog, cart: seq<CartLine>)
    requires Resolvable(catalog, cart)
    requires forall m :: m in catalog ==> catalog[m].price >= 0
    requires forall j :: 0 <= j < |cart| ==> cart[j].quantity >= 0
    ensures var b := CartBreakdown(catalog, cart).value;
      && b.subtotal >= 0
      && b.tax == b.subtotal / 10
      && b.subtotal <= b.total <= b.subtotal + b.subtotal / 10
  {
    ItemsValueNonNegative(Snapshot(catalog, cart));
  }

  // ---------------------------------------------------------------------------
  // Vouchers
  // ---------------------------------------------------------------------------

  /** The discount a code earns: the voucher's own discount when a voucher
      with that code exists and is flagged valid, otherwise nothing. */
  function VoucherDiscount(vouchers: map<string, Voucher>, code: string): (d: int)
    ensures code in vouchers && vouchers[code].isValid ==> d == vouchers[code].discount
    ensures !(code in vouchers && vouchers[code].isValid) ==> d == 0
  {
    if code in vouchers && vouchers[code].isValid then vouchers[code].discount else 0
  }

  datatype VoucherReply = VoucherReply(subtotal: int, discount: int, success: bool)

  /** Applying a voucher code to a cart. The reply's success flag only says
      whether the discount is positive, so an unknown code, a voucher flagged
      invalid and a valid voucher worth nothing all read as failure. */
  function ApplyVoucher(catalog: Catalog, cart: seq<CartLine>, vouchers: map<string, Voucher>, code: string)
    : (r: Result<VoucherReply>)
    ensures r.Ok? <==> Resolvable(catalog, cart)
    ensures r.Err? ==> r.error == StaleMenuReference
    ensures r.Ok? ==> r.value.subtotal == ItemsValue(Snapshot(catalog, cart))
    ensures r.Ok? ==> r.value.discount == VoucherDiscount(vouchers, code)
    ensures r.Ok? ==>
      (r.value.success <==> code in vouchers && vouchers[code].isValid && vouchers[code].discount > 0)
  {
    if Resolvable(catalog, cart) then
      var d := VoucherDiscount(vouchers, code);
      Ok(VoucherReply(ItemsValue(Snapshot(catalog, cart)), d, d > 0))
    else Err(StaleMenuReference)
  }
}

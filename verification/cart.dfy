/**
 * The bag page: the lines in the bag with their quantity buttons, and the
 * summary of subtotal, shipping, total and the free-shipping hint. The
 * subtotal comes from the cart store, which is not part of this model, so
 * it enters as a parameter.
 */
module Cart {
  import opened Wrappers
  import opened Types

  /** Orders above this subtotal ship free. */
  const FreeShippingOver := 1000

  /** The flat shipping fee below the threshold. */
  const ShippingFee := 50

  /** Shipping is free exactly above the threshold. */
  function Shipping(subtotal: int): (r: int)
    ensures r == 0 <==> subtotal > FreeShippingOver
    ensures r == 0 || r == ShippingFee
  {
    if subtotal > FreeShippingOver then 0 else ShippingFee
  }

  /** The free-shipping hint as the page writes it: shown while shipping is
      charged, naming the gap between the subtotal and the threshold. */
  function HintAsWritten(subtotal: int): (r: Option<int>)
    ensures r.Some? <==> Shipping(subtotal) > 0
    ensures r.Some? ==> r.value >= 0 && (r.value == 0 <==> subtotal == FreeShippingOver)
  {
    if Shipping(subtotal) > 0 then Some(FreeShippingOver - subtotal) else None
  }

  /** Adding the amount the hint names still leaves shipping charged: the
      subtotal then sits exactly at the threshold, which is not above it. */
  lemma HintFallsShort(subtotal: int)
    requires HintAsWritten(subtotal).Some?
    ensures Shipping(subtotal + HintAsWritten(subtotal).value) == ShippingFee
  {
  }

  /** The hint naming the least whole amount that makes shipping free. */
  function FreeShippingHint(subtotal: int): (r: Option<int>)
    ensures r.Some? <==> Shipping(subtotal) > 0
    ensures r.Some? ==> r.value >= 1
  {
    if Shipping(subtotal) > 0 then Some(FreeShippingOver + 1 - subtotal) else None
  }

  /** Adding the hinted amount makes shipping free, and adding any smaller
      amount does not. */
  lemma HintReachesFreeShipping(subtotal: int, extra: int)
    requires FreeShippingHint(subtotal).Some?
    ensures Shipping(subtotal + FreeShippingHint(subtotal).value) == 0
    ensures 0 <= extra < FreeShippingHint(subtotal).value ==> Shipping(subtotal + extra) == ShippingFee
  {
  }

  /** The summary card, or the empty-bag view. */
  datatype View =
    | EmptyBag
    | Summary(lines: seq<CartItem>, subtotal: int, shipping: int, total: int, hint: Option<int>)

  /** The bag page for the given lines and the store's subtotal. */
  function Page(items: seq<CartItem>, subtotal: int): (r: View)
    ensures r.EmptyBag? <==> |items| == 0
    ensures r.Summary? ==> && r.lines == items && r.subtotal == subtotal
                           && r.total == subtotal + r.shipping
                           && (r.shipping == 0 <==> subtotal > FreeShippingOver)
                           && (r.hint.Some? <==> r.shipping > 0)
                           && (r.hint.Some? ==> subtotal + r.hint.value == FreeShippingOver)
  {
    if |items| == 0 then EmptyBag
    else
      var shipping := Shipping(subtotal);
      Summary(items, subtotal, shipping, subtotal + shipping, HintAsWritten(subtotal))
  }

  /** The page shows the hint as written, so a shopper who adds exactly the
      amount it names still pays the fee on the next visit to the bag. */
  lemma {:induction false} PageHintFallsShort(items: seq<CartItem>, subtotal: int)
    requires |items| > 0 && subtotal <= FreeShippingOver
    ensures var v := Page(items, subtotal);
            v.hint.Some? && Page(items, subtotal + v.hint.value).shipping == ShippingFee
  {
    HintFallsShort(subtotal);
  }

  /** The total never falls below the subtotal and exceeds it by at most
      the fee; past the threshold the two agree. */
  lemma TotalBounds(items: seq<CartItem>, subtotal: int)
    requires |items| > 0
    ensures var v := Page(items, subtotal);
            && subtotal <= v.total <= subtotal + ShippingFee
            && (v.total == subtotal <==> subtotal > FreeShippingOver)
  {
  }

  /** The calls a line's buttons make to the cart store. */
  datatype StoreCall = UpdateQuantity(cartItemId: string, quantity: int) | RemoveFromCart(cartItemId: string)

  /** The minus and plus buttons ask for one less and one more; the page does
      not clamp, that is left to the store. */
  function QuantityCalls(item: CartItem): (r: (StoreCall, StoreCall))
    ensures r.0.UpdateQuantity? && r.1.UpdateQuantity?
    ensures r.0.cartItemId == item.cartItemId && r.1.cartItemId == item.cartItemId
    ensures r.0.quantity < item.quantity < r.1.quantity
    ensures r.1.quantity - r.0.quantity == 2
  {
    (UpdateQuantity(item.cartItemId, item.quantity - 1), UpdateQuantity(item.cartItemId, item.quantity + 1))
  }

  /** The bin button asks for the line to go. */
  function RemoveCall(item: CartItem): (r: StoreCall)
    ensures r.RemoveFromCart? && r.cartItemId == item.cartItemId
  {
    RemoveFromCart(item.cartItemId)
  }

  /** A line's heading: the Arabic name in Arabic, otherwise the English name
      falling back to the Arabic one. */
  function LineTitle(item: CartItem, isAr: bool): (r: string)
    ensures isAr ==> r == item.product.name
    ensures !isAr ==> r == item.product.name || Some(r) == item.product.nameEn
  {
    if isAr then item.product.name else TextOr(item.product.nameEn, item.product.name)
  }
}

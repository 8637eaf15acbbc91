/** The cart page's decisions (src/app/cart/page.tsx): the order summary
    with a coupon discount, the free-shipping hint, and the buttons that
    clear the cart or go to checkout. */
module CartPage {
  import opened Optional
  import opened Types
  import opened Actions
  import opened Pricing
  import CouponInput
  import Strings

  /** `finalTotal = totalPrice + tax + SHIPPING_FEE - discountAmount`: the
      discount is subtracted as given, with no lower bound on the result. */
  function FinalTotal(totalPrice: real, discount: real): (total: real)
    ensures total + discount == Charged(totalPrice)
    ensures discount <= 0.0 ==> total >= Charged(totalPrice)
  {
    totalPrice + Tax(totalPrice) + ShippingFee(totalPrice) - discount
  }

  /** Nothing keeps the total from going below zero: FLAT50 on a subtotal
      under 40 gives a negative amount to pay. */
  lemma FlatCouponCanMakeTotalNegative(totalPrice: real)
    requires 0.0 <= totalPrice < 40.0
    ensures CouponInput.LookupCoupon("FLAT50") == Some(CouponInput.CouponRule(50.0, Fixed))
    ensures FinalTotal(totalPrice, CouponInput.LookupCoupon("FLAT50").value.discount) < 0.0
  {
    assert Strings.ToUpper("FLAT50") == "FLAT50";
  }

  /** The page's `discount` state: `setDiscount` is the `onApply` callback,
      so a call replaces the discount and no call leaves it. */
  function DiscountAfter(discount: real, onApply: Option<real>): (d: real)
    ensures onApply.Some? ==> d == onApply.value
    ensures onApply.None? ==> d == discount
  {
    match onApply
    case Some(amount) => amount
    case None => discount
  }

  /** A percentage coupon lowers the total by its number, not by that
      percentage of the subtotal: SAVE10 takes 10 off any cart. */
  lemma PercentageCouponTakenAsAmount(s: CouponInput.CouponState, discount: real, totalPrice: real)
    requires Strings.SameUpToCase(s.code, "SAVE10")
    ensures FinalTotal(totalPrice, DiscountAfter(discount, CouponInput.Applied(s).onApply))
      == Charged(totalPrice) - 10.0
  {
    CouponInput.PercentageReportedAsNumber(s);
  }

  /** An unknown code keeps the discount the page had; removing a coupon
      brings the total back to the undiscounted charge. */
  lemma DiscountFollowsCouponBox(s: CouponInput.CouponState, discount: real, totalPrice: real)
    ensures CouponInput.LookupCoupon(s.code).None? ==>
      DiscountAfter(discount, CouponInput.Applied(s).onApply) == discount
    ensures FinalTotal(totalPrice, DiscountAfter(discount, Some(CouponInput.Removed(s).1)))
      == Charged(totalPrice)
  {
  }

  /** The page's discount before any coupon is applied. */
  const InitialDiscount: real := 0.0

  /** Before any coupon reports an amount, the page charges the full total,
      and a coupon box that reports nothing leaves it so. */
  lemma InitialTotalIsCharged(totalPrice: real, s: CouponInput.CouponState)
    ensures FinalTotal(totalPrice, InitialDiscount) == Charged(totalPrice)
    ensures CouponInput.LookupCoupon(s.code).None? ==>
      FinalTotal(totalPrice, DiscountAfter(InitialDiscount, CouponInput.Applied(s).onApply)) == Charged(totalPrice)
  {
  }

  /** The hint under the shipping row, shown when
      `totalPrice < 50 && SHIPPING_FEE > 0`, with the amount `50 - totalPrice`. */
  function FreeShippingHint(totalPrice: real): (hint: Option<real>)
    ensures hint.Some? <==> totalPrice < FreeShippingAbove
    ensures hint.Some? ==> hint.value > 0.0
    ensures hint.Some? ==> totalPrice + hint.value == FreeShippingAbove
  {
    if totalPrice < FreeShippingAbove && ShippingFee(totalPrice) > 0.0 then
      Some(FreeShippingAbove - totalPrice)
    else None
  }

  /** As written, the hint does not do what it says: adding the hinted
      amount brings the subtotal to exactly 50, which still pays the fee;
      and at exactly 50 the fee is charged with no hint at all. */
  lemma HintMissesFreeShipping(totalPrice: real)
    requires FreeShippingHint(totalPrice).Some?
    ensures ShippingFee(totalPrice + FreeShippingHint(totalPrice).value) == FlatShippingFee
    ensures ShippingFee(FreeShippingAbove) == FlatShippingFee && FreeShippingHint(FreeShippingAbove).None?
  {
  }

  /** The smallest step a price can take. */
  const Cent: real := 0.01

  /** The hint as intended: shown exactly when shipping is charged, with an
      amount that reaches free shipping, and no cent less would. */
  function FreeShippingHintCorrected(totalPrice: real): (hint: Option<real>)
    ensures hint.Some? <==> ShippingFee(totalPrice) > 0.0
    ensures hint.Some? ==> hint.value > 0.0
    ensures hint.Some? ==> ShippingFee(totalPrice + hint.value) == 0.0
    ensures hint.Some? ==> ShippingFee(totalPrice + hint.value - Cent) == FlatShippingFee
  {
    if ShippingFee(totalPrice) > 0.0 then Some(FreeShippingAbove - totalPrice + Cent) else None
  }

  /** Where the hint as written is shown, the corrected one is shown too,
      one cent larger. */
  lemma CorrectedHintExtendsWritten(totalPrice: real)
    ensures FreeShippingHint(totalPrice).Some? ==>
      FreeShippingHintCorrected(totalPrice) == Some(FreeShippingHint(totalPrice).value + Cent)
  {
  }

  /** What the checkout button does. */
  datatype CheckoutClick = EmptyCartError | GoToCheckout

  /** `handleCheckout`: an empty cart is refused with an error. */
  function HandleCheckout(items: seq<CartItem>): (r: CheckoutClick)
    ensures r == GoToCheckout <==> |items| > 0
    ensures r == EmptyCartError <==> items == []
  {
    if |items| == 0 then EmptyCartError else GoToCheckout
  }

  /** `handleClearCart`: `clearCart` is dispatched only once the dialog is
      confirmed. */
  function HandleClearCart(confirmed: bool): (commands: seq<Action>)
    ensures |commands| <= 1
    ensures commands != [] <==> confirmed
    ensures forall k :: 0 <= k < |commands| ==> commands[k] == ClearCart
  {
    if confirmed then [ClearCart] else []
  }
}

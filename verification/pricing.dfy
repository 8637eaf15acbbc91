/** The price arithmetic that the cart page (src/app/cart/page.tsx) and the
    checkout page (src/app/checkout/page.tsx) each write out for
    themselves, with the same constants. Amounts are exact reals. */
module Pricing {
  /** `TAX_RATE`. */
  const TaxRate: real := 0.1
  /** The flat fee charged when shipping is not free. */
  const FlatShippingFee: real := 5.99
  /** Shipping is free only strictly above this subtotal. */
  const FreeShippingAbove: real := 50.0

  /** `SHIPPING_FEE = totalPrice > 50 ? 0 : 5.99`. */
  function ShippingFee(totalPrice: real): (fee: real)
    ensures fee == 0.0 <==> totalPrice > FreeShippingAbove
    ensures fee == 0.0 || fee == FlatShippingFee
  {
    if totalPrice > FreeShippingAbove then 0.0 else FlatShippingFee
  }

  /** `tax = totalPrice * TAX_RATE`: a tenth of the subtotal. */
  function Tax(totalPrice: real): (tax: real)
    ensures tax * 10.0 == totalPrice
    ensures totalPrice >= 0.0 ==> 0.0 <= tax <= totalPrice
  {
    totalPrice * TaxRate
  }

  /** A subtotal of exactly 50 still pays the flat fee. */
  lemma ExactlyFiftyPaysShipping()
    ensures ShippingFee(FreeShippingAbove) == FlatShippingFee
  {
  }

  /** Subtotal, tax and shipping together. */
  function Charged(totalPrice: real): real
  {
    totalPrice + Tax(totalPrice) + ShippingFee(totalPrice)
  }

  /** Across the threshold the amount charged falls: a subtotal a little
      above 50 costs less in total than 50 itself, because the fee
      disappears. */
  lemma ChargedDropsAtThreshold(t: real)
    requires FreeShippingAbove < t < FreeShippingAbove + 5.0
    ensures Charged(t) < Charged(FreeShippingAbove)
  {
  }

  /** Away from the threshold, a larger subtotal is charged more. */
  lemma ChargedMonotoneOnEachSide(a: real, b: real)
    requires a <= b
    requires b <= FreeShippingAbove || FreeShippingAbove < a
    ensures Charged(a) <= Charged(b)
  {
  }
}

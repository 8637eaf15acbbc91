/** The checkout page (src/app/checkout/page.tsx): the totals, the two
    payment-field formatters, the form-state updates, and the submit
    handler that validates the form and places the order. */
module CheckoutPage {
  import opened Optional
  import opened Sequences
  import opened Strings
  import opened Types
  import opened Actions
  import opened Pricing
  import CartPage
  import OrderSlice

  /** `finalTotal = totalPrice + tax + SHIPPING_FEE`: the cart page's total
      with no discount, since no coupon reaches this page. */
  function FinalTotal(totalPrice: real): (total: real)
    ensures total == CartPage.FinalTotal(totalPrice, 0.0)
    ensures totalPrice > FreeShippingAbove ==> total * 10.0 == totalPrice * 11.0
    ensures totalPrice <= FreeShippingAbove ==> total * 10.0 == totalPrice * 11.0 + FlatShippingFee * 10.0
  {
    totalPrice + Tax(totalPrice) + ShippingFee(totalPrice)
  }

  // ----- card number: value.replace(/\s/g, '').replace(/(\d{4})/g, '$1 ').trim()

  predicate StartsWithFourDigits(s: string)
  {
    |s| >= 4 && IsDigit(s[0]) && IsDigit(s[1]) && IsDigit(s[2]) && IsDigit(s[3])
  }

  /** `replace(/(\d{4})/g, '$1 ')`: scanning left to right, each run of four
      digits is copied followed by a space; any other character is copied
      as it is and the scan moves on by one. */
  function GroupDigits(s: string): (r: string)
    ensures |s| <= |r| <= |s| + |s| / 4
    ensures forall c :: c in r && c != ' ' ==> c in s
    decreases |s|
  {
    if StartsWithFourDigits(s) then s[..4] + " " + GroupDigits(s[4..])
    else if s == [] then []
    else [s[0]] + GroupDigits(s[1..])
  }

  /** Grouping only inserts white space. */
  lemma {:induction false} GroupDigitsInsertsOnlySpaces(s: string)
    ensures RemoveWhitespace(GroupDigits(s)) == RemoveWhitespace(s)
    decreases |s|
  {
    if StartsWithFourDigits(s) {
      var head, rest := s[..4], s[4..];
      GroupDigitsInsertsOnlySpaces(rest);
      RemoveWhitespaceDropsSpace(head, GroupDigits(rest));
      assert s == head + rest;
      FilterConcat(head, rest, IsVisible);
    } else if s != [] {
      var rest := s[1..];
      GroupDigitsInsertsOnlySpaces(rest);
      FilterConcat([s[0]], GroupDigits(rest), IsVisible);
      assert s == [s[0]] + rest;
      FilterConcat([s[0]], rest, IsVisible);
    }
  }

  /** The card-number field's formatter. Its output carries exactly the
      non-blank characters of its input, in order, and neither begins nor
      ends with white space. */
  function FormatCardNumber(raw: string): (r: string)
    ensures RemoveWhitespace(r) == RemoveWhitespace(raw)
    ensures r == [] || (!IsWhitespace(r[0]) && !IsWhitespace(r[|r| - 1]))
  {
    var stripped := RemoveWhitespace(raw);
    var grouped := GroupDigits(stripped);
    GroupDigitsInsertsOnlySpaces(stripped);
    RemoveWhitespaceIgnoresTrim(grouped);
    RemoveWhitespaceIdempotent(raw);
    Trim(grouped)
  }

  /** Formatting a formatted card number changes nothing, so the field is
      stable under re-entry. */
  lemma CardNumberIdempotent(raw: string)
    ensures FormatCardNumber(FormatCardNumber(raw)) == FormatCardNumber(raw)
  {
  }

  /** On digits, grouping puts a space at every fifth position and nowhere
      else. */
  lemma {:induction false} GroupedDigitsLayout(s: string)
    requires forall k :: 0 <= k < |s| ==> IsDigit(s[k])
    ensures |GroupDigits(s)| == |s| + |s| / 4
    ensures forall k :: 0 <= k < |GroupDigits(s)| ==>
      (IsWhitespace(GroupDigits(s)[k]) <==> k % 5 == 4)
    decreases |s|
  {
    var g := GroupDigits(s);
    if StartsWithFourDigits(s) {
      var t := s[4..];
      GroupedDigitsLayout(t);
      assert g == s[..4] + " " + GroupDigits(t);
      forall k | 0 <= k < |g| ensures IsWhitespace(g[k]) <==> k % 5 == 4 {
        if k >= 5 {
          assert g[k] == GroupDigits(t)[k - 5];
          assert (k - 5) % 5 == k % 5;
        } else if k < 4 {
          assert g[k] == s[k];
        }
      }
    } else {
      assert |s| < 4;
      if s != [] {
        GroupedDigitsLayout(s[1..]);
        assert GroupDigits(s[1..]) == s[1..];
        assert g == s;
      }
    }
  }

  /** Trimming a string whose only edge white space is one trailing
      character removes just that character. */
  lemma TrimDropsOneTrailingSpace(g: string)
    requires |g| >= 2 && !IsWhitespace(g[0])
    requires IsWhitespace(g[|g| - 1]) && !IsWhitespace(g[|g| - 2])
    ensures Trim(g) == g[..|g| - 1]
  {
    assert TrimStart(g) == g;
    var h := g[..|g| - 1];
    assert h[|h| - 1] == g[|g| - 2];
    assert TrimEnd(g) == TrimEnd(h);
  }

  /** Trimming a string with no white space at either edge keeps it. */
  lemma TrimKeepsUnpadded(g: string)
    requires |g| >= 1 && !IsWhitespace(g[0]) && !IsWhitespace(g[|g| - 1])
    ensures Trim(g) == g
  {
    assert TrimStart(g) == g;
  }

  /** The length arithmetic of grouping n > 0 digits: the grouped text
      ends in a space exactly when n is a multiple of four, and dropping
      that space leaves n + (n - 1) / 4 characters. */
  lemma GroupedLength(n: nat)
    requires n > 0
    ensures (n + n / 4 - 1) % 5 == 4 <==> n % 4 == 0
    ensures n % 4 == 0 ==> (n + n / 4 - 2) % 5 == 3 && n + n / 4 - 1 == n + (n - 1) / 4
    ensures n % 4 != 0 ==> n + n / 4 == n + (n - 1) / 4
  {
    var q, r := n / 4, n % 4;
    DivModFour(n, q, r);
    if r == 0 {
      DivModFour(n - 1, q - 1, 3);
      DivModFive(n + n / 4 - 1, q - 1, 4);
      DivModFive(n + n / 4 - 2, q - 1, 3);
    } else {
      DivModFour(n - 1, q, r - 1);
      DivModFive(n + n / 4 - 1, q, r - 1);
    }
  }

  /** Division by four is determined by its quotient and remainder. */
  lemma DivModFour(a: int, q: int, r: int)
    requires 0 <= r < 4 && a == 4 * q + r
    ensures a / 4 == q && a % 4 == r
  {
  }

  /** Division by five is determined by its quotient and remainder. */
  lemma DivModFive(a: int, q: int, r: int)
    requires 0 <= r < 5 && a == 5 * q + r
    ensures a / 5 == q && a % 5 == r
  {
  }

  /** A string laid out as `GroupedDigitsLayout` describes, for n > 0
      digits, trims to n + (n - 1) / 4 characters. */
  lemma TrimmedLayoutLength(g: string, n: nat)
    requires n > 0 && |g| == n + n / 4
    requires forall k :: 0 <= k < |g| ==> (IsWhitespace(g[k]) <==> k % 5 == 4)
    ensures |Trim(g)| == n + (n - 1) / 4
  {
    GroupedLength(n);
    assert !IsWhitespace(g[0]);
    if n % 4 == 0 {
      assert IsWhitespace(g[|g| - 1]) && !IsWhitespace(g[|g| - 2]);
      TrimDropsOneTrailingSpace(g);
    } else {
      assert !IsWhitespace(g[|g| - 1]);
      TrimKeepsUnpadded(g);
    }
  }

  /** Grouped and trimmed, n > 0 digits take n + (n - 1) / 4 characters. */
  lemma TrimmedGroupLength(s: string)
    requires |s| > 0 && forall k :: 0 <= k < |s| ==> IsDigit(s[k])
    ensures |Trim(GroupDigits(s))| == |s| + (|s| - 1) / 4
  {
    GroupedDigitsLayout(s);
    TrimmedLayoutLength(GroupDigits(s), |s|);
  }

  /** A card number typed as n > 0 digits is shown with n + (n - 1) / 4
      characters: sixteen digits fill the field's 19 exactly. */
  lemma CardNumberLength(raw: string)
    requires |raw| > 0 && forall k :: 0 <= k < |raw| ==> IsDigit(raw[k])
    ensures |FormatCardNumber(raw)| == |raw| + (|raw| - 1) / 4
    ensures |raw| == 16 ==> |FormatCardNumber(raw)| == 19
  {
    FilterKeepsAll(raw, IsVisible);
    TrimmedGroupLength(raw);
  }

  // ----- expiry date: value.replace(/\D/g, '').replace(/(\d{2})(\d)/, '$1/$2').substr(0, 5)

  /** `replace(/(\d{2})(\d)/, '$1/$2')` on a string of digits: a slash after
      the first two, once a third follows. */
  function InsertSlash(digits: string): (r: string)
    ensures |digits| < 3 ==> r == digits
    ensures |digits| >= 3 ==> |r| == |digits| + 1 && r[2] == '/'
    ensures |digits| >= 3 ==> forall k :: 0 <= k < |digits| ==> r[if k < 2 then k else k + 1] == digits[k]
  {
    if |digits| >= 3 then digits[..2] + "/" + digits[2..] else digits
  }

  /** The expiry field's formatter: at most five characters, the first four
      digits of the input, and a slash in the middle once there are three. */
  function FormatExpiry(raw: string): (r: string)
    ensures |r| <= 5
    ensures |r| >= 3 ==> r[2] == '/'
    ensures forall k :: 0 <= k < |r| && k != 2 ==> IsDigit(r[k])
    ensures KeepDigits(r) == Take(KeepDigits(raw), 4)
    ensures |r| >= 3 <==> |KeepDigits(raw)| >= 3
    ensures |KeepDigits(raw)| <= 2 ==> r == KeepDigits(raw)
  {
    var digits := KeepDigits(raw);
    var r := Take(InsertSlash(digits), 5);
    ExpiryDigits(digits, r);
    r
  }

  lemma ExpiryDigits(digits: string, r: string)
    requires forall k :: 0 <= k < |digits| ==> IsDigit(digits[k])
    requires r == Take(InsertSlash(digits), 5)
    ensures KeepDigits(r) == Take(digits, 4)
  {
    if |digits| >= 3 {
      var m := if |digits| < 4 then |digits| else 4;
      assert r == digits[..2] + "/" + digits[2..m];
      KeepDigitsDropsSlash(digits[..2], digits[2..m]);
      assert digits[..2] + digits[2..m] == digits[..m];
    } else {
      KeepDigitsOfDigits(digits);
    }
  }

  /** Formatting a formatted expiry date changes nothing. */
  lemma ExpiryIdempotent(raw: string)
    ensures FormatExpiry(FormatExpiry(raw)) == FormatExpiry(raw)
  {
    var d := KeepDigits(raw);
    var r := FormatExpiry(raw);
    var e := KeepDigits(r);
    assert e == Take(d, 4);
    if |d| >= 3 {
      var m := if |d| < 4 then |d| else 4;
      assert r == d[..2] + "/" + d[2..m];
      assert e == d[..m];
      assert InsertSlash(e) == r;
    } else {
      assert r == d;
    }
  }

  // ----- form state

  datatype ShippingField = FullName | Email | Phone | Address | City | State | ZipCode | Country

  function ShippingFieldValue(info: ShippingInfo, field: ShippingField): string
  {
    match field
    case FullName => info.fullName
    case Email => info.email
    case Phone => info.phone
    case Address => info.address
    case City => info.city
    case State => info.state
    case ZipCode => info.zipCode
    case Country => info.country
  }

  /** `handleShippingChange`: the named field takes the typed value as it
      is; every other field is kept. */
  function HandleShippingChange(info: ShippingInfo, field: ShippingField, value: string): (r: ShippingInfo)
    ensures ShippingFieldValue(r, field) == value
    ensures forall f :: f != field ==> ShippingFieldValue(r, f) == ShippingFieldValue(info, f)
  {
    match field
    case FullName => info.(fullName := value)
    case Email => info.(email := value)
    case Phone => info.(phone := value)
    case Address => info.(address := value)
    case City => info.(city := value)
    case State => info.(state := value)
    case ZipCode => info.(zipCode := value)
    case Country => info.(country := value)
  }

  datatype PaymentField = CardNumber | CardName | ExpiryDate | Cvv

  function PaymentFieldValue(info: PaymentInfo, field: PaymentField): string
  {
    match field
    case CardNumber => info.cardNumber
    case CardName => info.cardName
    case ExpiryDate => info.expiryDate
    case Cvv => info.cvv
  }

  /** What a payment field stores of what was typed into it. */
  function PaymentInput(field: PaymentField, raw: string): string
  {
    match field
    case CardNumber => FormatCardNumber(raw)
    case ExpiryDate => FormatExpiry(raw)
    case _ => raw
  }

  /** The `{...paymentInfo, [name]: value}` update. */
  function WithPaymentField(info: PaymentInfo, field: PaymentField, value: string): (r: PaymentInfo)
    ensures PaymentFieldValue(r, field) == value
    ensures forall f :: f != field ==> PaymentFieldValue(r, f) == PaymentFieldValue(info, f)
  {
    match field
    case CardNumber => info.(cardNumber := value)
    case CardName => info.(cardName := value)
    case ExpiryDate => info.(expiryDate := value)
    case Cvv => info.(cvv := value)
  }

  /** `handlePaymentChange`: the named field takes the typed value,
      formatted for the card number and the expiry date; every other field
      is kept. */
  function HandlePaymentChange(info: PaymentInfo, field: PaymentField, raw: string): (r: PaymentInfo)
    ensures PaymentFieldValue(r, field) == PaymentInput(field, raw)
    ensures forall f :: f != field ==> PaymentFieldValue(r, f) == PaymentFieldValue(info, f)
  {
    WithPaymentField(info, field, PaymentInput(field, raw))
  }

  /** The inputs are controlled: feeding a field's shown value back through
      `handlePaymentChange` leaves the form as it is. */
  lemma PaymentFormStable(info: PaymentInfo, field: PaymentField, raw: string)
    ensures var r := HandlePaymentChange(info, field, raw);
      HandlePaymentChange(r, field, PaymentFieldValue(r, field)) == r
  {
    match field
    case CardNumber => CardNumberIdempotent(raw);
    case ExpiryDate => ExpiryIdempotent(raw);
    case _ =>
  }

  /** The forms as the page first shows them. */
  function InitialShippingInfo(): (r: ShippingInfo)
    ensures forall f :: f != Country ==> ShippingFieldValue(r, f) == ""
    ensures r.country == "United States"
  {
    ShippingInfo("", "", "", "", "", "", "", "United States")
  }

  function InitialPaymentInfo(): (r: PaymentInfo)
    ensures forall f :: PaymentFieldValue(r, f) == ""
  {
    PaymentInfo("", "", "", "")
  }

  // ----- submit

  /** The first check of `handleSubmit`: name, email and address are
      non-empty (the other shipping fields are not checked here). */
  predicate ShippingRequiredFilled(info: ShippingInfo)
  {
    info.fullName != "" && info.email != "" && info.address != ""
  }

  /** The second check: all four payment fields are non-empty. */
  predicate PaymentFilled(info: PaymentInfo)
  {
    info.cardNumber != "" && info.cardName != "" && info.expiryDate != "" && info.cvv != ""
  }

  /** `ORD-${Date.now()}` for a clock reading of `now` milliseconds. */
  function OrderId(now: nat): (id: string)
    ensures |id| > 4 && id[..4] == "ORD-"
  {
    "ORD-" + DecimalString(now)
  }

  /** Orders placed at different milliseconds get different ids. */
  lemma OrderIdsDiffer(a: nat, b: nat)
    requires a != b
    ensures OrderId(a) != OrderId(b)
  {
    if OrderId(a) == OrderId(b) {
      assert DecimalString(a) == OrderId(a)[4..];
      assert DecimalString(b) == OrderId(b)[4..];
      DecimalStringRoundTrip(a);
      DecimalStringRoundTrip(b);
    }
  }

  datatype SubmitOutcome =
    | MissingShippingInfo
    | MissingPaymentInfo
    | OrderPlaced(order: Order, dispatched: seq<Action>)

  /** `handleSubmit` with the clock read as `now` (milliseconds) and
      `isoDate`: an order is placed exactly when both checks pass, with
      status processing, the cart's items, the form's shipping details and
      the checkout total; it is dispatched before the cart is cleared. */
  function HandleSubmit(shipping: ShippingInfo, payment: PaymentInfo, cart: CartState, now: nat, isoDate: string): (r: SubmitOutcome)
    ensures r.OrderPlaced? <==> ShippingRequiredFilled(shipping) && PaymentFilled(payment)
    ensures r.MissingShippingInfo? <==> !ShippingRequiredFilled(shipping)
    ensures r.OrderPlaced? ==>
      && r.order.id == OrderId(now)
      && r.order.items == cart.items
      && r.order.shippingInfo == shipping
      && r.order.totalAmount == FinalTotal(cart.totalPrice)
      && r.order.orderDate == isoDate
      && r.order.status == Processing
      && r.dispatched == [AddOrder(r.order), ClearCart]
  {
    if shipping.fullName == "" || shipping.email == "" || shipping.address == "" then
      MissingShippingInfo
    else if payment.cardNumber == "" || payment.cardName == "" || payment.expiryDate == "" || payment.cvv == "" then
      MissingPaymentInfo
    else
      var order := Order(OrderId(now), cart.items, shipping, FinalTotal(cart.totalPrice), isoDate, Processing);
      OrderPlaced(order, [AddOrder(order), ClearCart])
  }

  /** A fresh form cannot be submitted. */
  lemma FreshFormRejected(cart: CartState, now: nat, isoDate: string)
    ensures HandleSubmit(InitialShippingInfo(), InitialPaymentInfo(), cart, now, isoDate) == MissingShippingInfo
  {
  }

  /** Once the placed order reaches the order history, it is the newest
      order and the current one, with status processing and the checkout
      total, and every earlier order is still there behind it. */
  lemma PlacedOrderEntersHistory(s: OrderState, shipping: ShippingInfo, payment: PaymentInfo, cart: CartState, now: nat, isoDate: string)
    requires HandleSubmit(shipping, payment, cart, now, isoDate).OrderPlaced?
    ensures var o := HandleSubmit(shipping, payment, cart, now, isoDate).order;
      var t := OrderSlice.Reduce(s, OrderSlice.AddOrderAction(o));
      && t.orders[0] == o && t.currentOrder == Some(o)
      && t.orders[1..] == s.orders
      && o.status == Processing && o.totalAmount == FinalTotal(cart.totalPrice)
  {
  }

  /** What the page renders: with an empty cart it sends the shopper back
      to the cart page instead of showing the form. */
  datatype CheckoutView = RedirectToCart | CheckoutForm

  function View(items: seq<CartItem>): (v: CheckoutView)
    ensures v == CheckoutForm <==> |items| > 0
  {
    if |items| == 0 then RedirectToCart else CheckoutForm
  }
}

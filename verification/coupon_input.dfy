/** The coupon box of the cart page (src/components/CouponInput.tsx): a
    text field that upper-cases what is typed, a fixed registry of three
    codes, and the apply/remove buttons that report a discount to the page
    through the `onApply` callback. */
module CouponInput {
  import opened Optional
  import opened Strings
  import opened Types

  /** What the registry knows about a code. */
  datatype CouponRule = CouponRule(discount: real, kind: CouponType)

  /** The mock registry, keyed by upper-case code. */
  function Registry(): map<string, CouponRule>
  {
    map[
      "SAVE10" := CouponRule(10.0, Percentage),
      "SAVE20" := CouponRule(20.0, Percentage),
      "FLAT50" := CouponRule(50.0, Fixed)]
  }

  /** `coupons[code.toUpperCase()]`: the rule of a known code, whatever the
      case it was typed in; `None` for anything else. */
  function LookupCoupon(code: string): (r: Option<CouponRule>)
    ensures r.Some? <==> ToUpper(code) == "SAVE10" || ToUpper(code) == "SAVE20" || ToUpper(code) == "FLAT50"
    ensures r.Some? ==> r.value.discount > 0.0
    ensures r.Some? && r.value.kind == Fixed ==> ToUpper(code) == "FLAT50"
    ensures ToUpper(code) == "SAVE10" ==> r == Some(CouponRule(10.0, Percentage))
    ensures ToUpper(code) == "SAVE20" ==> r == Some(CouponRule(20.0, Percentage))
    ensures ToUpper(code) == "FLAT50" ==> r == Some(CouponRule(50.0, Fixed))
  {
    var key := ToUpper(code);
    if key in Registry() then Some(Registry()[key]) else None
  }

  /** Codes that differ only in the case of their letters are the same
      coupon. */
  lemma LookupIgnoresCase(a: string, b: string)
    requires SameUpToCase(a, b)
    ensures LookupCoupon(a) == LookupCoupon(b)
  {
    SameUpToCaseIffSameUpper(a, b);
  }

  /** The empty code is never a coupon. */
  lemma EmptyCodeIsUnknown()
    ensures LookupCoupon("").None?
  {
    assert ToUpper("") == "";
  }

  /** The component's own state: the text in the field and the code shown
      as applied, if any. */
  datatype CouponState = CouponState(code: string, appliedCoupon: Option<string>)

  /** What `handleApply` leaves behind: the new state, and the amount passed
      to `onApply` when it was called. */
  datatype ApplyOutcome = ApplyOutcome(state: CouponState, onApply: Option<real>)

  /** `handleApply`: a known code is recorded, upper-cased, as applied and
      its raw discount number goes to `onApply`, whether it is a percentage
      or an amount; an unknown code changes nothing and calls nothing. */
  function Applied(s: CouponState): (r: ApplyOutcome)
    ensures r.onApply.Some? <==> LookupCoupon(s.code).Some?
    ensures r.onApply.Some? ==>
      r.onApply.value == LookupCoupon(s.code).value.discount
      && r.state == CouponState(s.code, Some(ToUpper(s.code)))
      && r.state.appliedCoupon.value in Registry()
    ensures r.onApply.None? ==> r.state == s
  {
    match LookupCoupon(s.code)
    case Some(rule) => ApplyOutcome(s.(appliedCoupon := Some(ToUpper(s.code))), Some(rule.discount))
    case None => ApplyOutcome(s, None)
  }

  /** A percentage coupon reaches the page as a plain number: SAVE10, typed
      in any case, reports 10 although the registry calls it 10 percent. */
  lemma PercentageReportedAsNumber(s: CouponState)
    requires SameUpToCase(s.code, "SAVE10")
    ensures LookupCoupon(s.code).value.kind == Percentage
    ensures Applied(s).onApply == Some(10.0)
  {
    SameUpToCaseIffSameUpper(s.code, "SAVE10");
    assert ToUpper("SAVE10") == "SAVE10";
  }

  /** `handleRemove`: field cleared, nothing applied, and 0 reported. */
  function Removed(s: CouponState): (r: (CouponState, real))
    ensures r.0.code == "" && r.0.appliedCoupon.None? && r.1 == 0.0
  {
    (CouponState("", None), 0.0)
  }

  /** Applying any code and then removing it returns the component to its
      initial state, and the last amount the page hears is 0. */
  lemma ApplyThenRemove(s: CouponState)
    ensures Removed(Applied(s).state) == (CouponState("", None), 0.0)
  {
  }

  /** The Apply button is disabled while the field is empty (`!code`). */
  function ApplyEnabled(s: CouponState): (enabled: bool)
    ensures !enabled ==> LookupCoupon(s.code).None?
    ensures enabled <==> |s.code| > 0
  {
    EmptyCodeIsUnknown();
    s.code != ""
  }

  class CouponBox {
    var code: string
    var appliedCoupon: Option<string>

    function State(): CouponState
      reads this
    {
      CouponState(code, appliedCoupon)
    }

    /** The field holds upper-case text only. */
    ghost predicate Valid()
      reads this
    {
      ToUpper(code) == code
    }

    constructor ()
      ensures code == "" && appliedCoupon == None && Valid()
    {
      code := "";
      appliedCoupon := None;
    }

    /** The input's `onChange`: whatever is typed is stored upper-cased. */
    method EditCode(typed: string)
      modifies this
      ensures code == ToUpper(typed) && appliedCoupon == old(appliedCoupon)
      ensures Valid()
    {
      code := ToUpper(typed);
      ToUpperIdempotent(typed);
    }

    /** `handleApply`; the result is the argument of the `onApply` call, if
        one was made. When the field is valid the applied code is exactly
        the text in the field. */
    method HandleApply() returns (onApply: Option<real>)
      modifies this
      ensures ApplyOutcome(State(), onApply) == Applied(old(State()))
      ensures Valid() == old(Valid())
      ensures old(Valid()) && onApply.Some? ==> appliedCoupon == Some(code)
    {
      var coupon := LookupCoupon(code);
      if coupon.Some? {
        appliedCoupon := Some(ToUpper(code));
        onApply := Some(coupon.value.discount);
      } else {
        onApply := None;
      }
    }

    /** `handleRemove`; the result is the argument of `onApply(0)`. */
    method HandleRemove() returns (onApply: real)
      modifies this
      ensures (State(), onApply) == Removed(old(State()))
      ensures Valid()
    {
      appliedCoupon := None;
      code := "";
      onApply := 0.0;
    }
  }
}

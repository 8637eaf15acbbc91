# ShopHub state and checkout logic in Dafny

ShopHub is a Next.js storefront whose shopping state lives in Redux slices
and whose checkout arithmetic is written inline in page components. This
project models the parts of it that decide things:

- the four slices it defines in full, each as a Dafny class with `seq`
  fields updated by methods:
  - the notification feed, with its hand-maintained unread counter;
  - the product-comparison list, at most four products with distinct ids;
  - the recently-viewed list, move-to-front with a cap of ten;
  - the order history, append-only, with a current order;
- the page logic, as functions over values:
  - the coupon box;
  - cart and checkout totals;
  - the card-number and expiry formatters;
  - checkout validation and order placement;
  - the cart-line and product-card buttons;
  - the search box's suggestions and recent searches;
  - the notification menu's relative times, badge and click handling.

Each slice method is proved against a specification function on values: its
`ensures` says the new list equals that function of the old list. The
properties of each slice are proved about those functions and as preserved
class invariants (`Valid`, `Consistent`). Money is an exact `real`: the tax
rate is 1/10 and the flat shipping fee is 599/100. JavaScript's
`Math.floor(x / n)` with a positive divisor is Dafny's Euclidean `/`.

Files and modules:

- **Shared helpers**
  - `optional.dfy` holds `Option`.
  - `sequences.dfy` holds `filter`, `slice`, `splice`, `findIndex` and the subsequence order.
  - `strings.dfy` holds JavaScript `\s`, `\d` and `trim`, ASCII case mapping, and decimal text.
- **Records and actions**
  - `types.dfy` holds the records of `src/types/index.ts` and the `Action` commands.
- **Slices**: `notification_slice.dfy`, `comparison_slice.dfy`, `recently_viewed_slice.dfy`, `order_slice.dfy`.
- **Components**
  - `pricing.dfy` holds the tax and shipping rules shared by the two pages.
  - `coupon_input.dfy`, `cart_page.dfy`, `checkout_page.dfy`, `card_item.dfy`, `product_card.dfy`, `live_search.dfy`, `notification_center.dfy`.

Three behaviours of the code are worth knowing when reading the model:

- **Shipping fields.** `handleSubmit` checks only the name, email and address (`src/app/checkout/page.tsx:71`), and `HandleSubmit` does the same. `handleSubmit` itself accepts the other shipping fields empty. The form's `required` attributes make the browser refuse them first, and that browser check is not modelled.
- **Order items.** The order stores the cart's own item array. With value semantics this is the same as a copy.
- **Recent searches.** `handleSearch` has one caller: a click on an entry of the recent-search list (`src/components/LiveSearch.tsx:180`). The input has no submit or Enter handler, and a click on a suggestion opens the product. So a typed query never enters the list; a click only moves a listed search to the front. `ClickRecentSearch` and `ClickKeepsEntries` state this reachable case, and `RecordSearch` states what `handleSearch` would do with any query.

## Model

| member | source | states |
|---|---|---|
| `NotificationSlice.InitialNotifications` | src/lib/features/notificationSlice.ts:4-25 | the two initial notifications are both unread, have distinct ids, and the initial counter 2 equals their unread count |
| `NotificationSlice.NotificationFeed.constructor` | src/lib/features/notificationSlice.ts:4-25 | the feed starts with those two notifications, counter 2, consistent |
| `NotificationSlice.NotificationFeed.AddNotification` | src/lib/features/notificationSlice.ts:31-40 | the payload, with id `Date.now().toString()`, is placed at index 0 with the old list after it; the counter grows by one exactly when it is unread; a consistent feed stays consistent when the id is fresh |
| `NotificationSlice.UnreadCount` | src/lib/features/notificationSlice.ts:37-39 | the number of unread notifications is at most the length and is 0 exactly when all are read |
| `NotificationSlice.FindIndex` | src/lib/features/notificationSlice.ts:42 | `find` by id: the first matching index, or none exactly when no notification has the id |
| `NotificationSlice.MarkedAsRead` | src/lib/features/notificationSlice.ts:41-47 | only the first notification with the id can change and only to `read`; if it was unread the unread count falls by one; a read or absent id changes nothing; ids and length are kept |
| `NotificationSlice.NotificationFeed.MarkAsRead` | src/lib/features/notificationSlice.ts:41-47 | the list becomes `MarkedAsRead`; the counter drops by one, floored at 0, exactly when the first match was unread; consistency is preserved |
| `NotificationSlice.AllRead` | src/lib/features/notificationSlice.ts:48-51 | every notification becomes read, nothing else about it changes, length and order are kept, and the unread count is 0 |
| `NotificationSlice.NotificationFeed.MarkAllAsRead` | src/lib/features/notificationSlice.ts:48-51 | the loop marks every entry read (list equals `AllRead` of the old one) and the counter becomes 0; consistency is preserved |
| `NotificationSlice.WithoutId` | src/lib/features/notificationSlice.ts:57 | `filter` by id: no notification with the id remains, every other one stays in order, an absent id changes nothing |
| `NotificationSlice.UnreadCountMarkRead` | src/lib/features/notificationSlice.ts:43-45 | setting one unread notification read lowers the unread count by exactly one |
| `NotificationSlice.UnreadCountWithoutId` | src/lib/features/notificationSlice.ts:52-58 | with distinct ids, deleting an id lowers the unread count by one exactly when its first match was unread, which is the reducer's decrement |
| `NotificationSlice.DuplicateIdsBreakDeleteCount` | src/lib/features/notificationSlice.ts:52-58 | with a repeated id the delete removes two unread entries while the reducer decrements once, so consistency needs distinct ids |
| `NotificationSlice.NotificationFeed.DeleteNotification` | src/lib/features/notificationSlice.ts:52-58 | the list loses every entry with the id; the counter drops by one, floored at 0, only if the first match was unread; consistency is preserved |
| `NotificationSlice.NotificationFeed.ClearAllNotifications` | src/lib/features/notificationSlice.ts:59-62 | empty list, counter 0, consistent |
| `ComparisonSlice.Added` | src/lib/features/comparisonSlice.ts:12-19 | the product is appended exactly when fewer than four are compared and its id is new, otherwise nothing changes; the bound of four and distinct ids are kept; afterwards the id is present exactly when it was already or there was room |
| `ComparisonSlice.Comparison.AddToComparison` | src/lib/features/comparisonSlice.ts:12-19 | the list becomes `Added` of the old list and stays within four distinct ids |
| `ComparisonSlice.WithoutProduct` | src/lib/features/comparisonSlice.ts:20-22 | every product with the id is removed, the rest keep their order, distinct ids are kept, an absent id changes nothing |
| `ComparisonSlice.Comparison.RemoveFromComparison` | src/lib/features/comparisonSlice.ts:20-22 | the list becomes `WithoutProduct` of the old list and stays valid |
| `ComparisonSlice.Comparison.ClearComparison` | src/lib/features/comparisonSlice.ts:23-25 | the list becomes empty |
| `ComparisonSlice.Comparison.constructor` | src/lib/features/comparisonSlice.ts:4-6 | the list starts empty and valid |
| `ComparisonSlice.AddAllBounded` | src/lib/features/comparisonSlice.ts:12-19 | however many products are offered in a row, the list keeps at most four distinct ids |
| `ComparisonSlice.FirstFourKept` | src/lib/features/comparisonSlice.ts:12-19 | products with distinct ids offered one by one: the result is the first four of them in order |
| `RecentlyViewedSlice.FindProductIndex` | src/lib/features/recentlyViewedSlice.ts:13 | `findIndex` by id: the first index with the id, none exactly when the id is absent |
| `RecentlyViewedSlice.Viewed` | src/lib/features/recentlyViewedSlice.ts:12-24 | after a view the list is non-empty, at most ten long, and starts with the viewed product |
| `RecentlyViewedSlice.ViewedKeepsOrder` | src/lib/features/recentlyViewedSlice.ts:13-23 | the products after the first are a subsequence of the old list: relative order is kept |
| `RecentlyViewedSlice.ViewedDistinct` | src/lib/features/recentlyViewedSlice.ts:13-19 | with distinct ids before, ids stay distinct and the viewed id occurs only at index 0 |
| `RecentlyViewedSlice.ReviewKeepsLength` | src/lib/features/recentlyViewedSlice.ts:13-19 | re-viewing a product already listed keeps the length |
| `RecentlyViewedSlice.NewViewDropsOldest` | src/lib/features/recentlyViewedSlice.ts:19-23 | a new product is put in front of the old list, and with ten already listed the last one is dropped |
| `RecentlyViewedSlice.RecentlyViewed.AddToRecentlyViewed` | src/lib/features/recentlyViewedSlice.ts:12-24 | the `findIndex`/`splice`/`unshift`/`slice` steps leave exactly `Viewed` of the old list, and the list stays within ten distinct ids |
| `RecentlyViewedSlice.RecentlyViewed.ClearRecentlyViewed` | src/lib/features/recentlyViewedSlice.ts:25-27 | the list becomes empty |
| `RecentlyViewedSlice.RecentlyViewed.constructor` | src/lib/features/recentlyViewedSlice.ts:4-6 | the list starts empty and valid |
| `OrderSlice.FindOrderIndex` | src/lib/features/orderSlice.ts:18 | `find` by id: the first index with the id, none exactly when the id is absent |
| `OrderSlice.StatusUpdated` | src/lib/features/orderSlice.ts:17-22 | only the first order with the id changes, only in its status, to the requested one whatever it was before; an unknown id changes nothing |
| `OrderSlice.Reduce` | src/lib/features/orderSlice.ts:13-25 | one action keeps every older order, shifted back by the one order `addOrder` puts in front, with at most its status changed; `addOrder` makes its order the current one, `updateOrderStatus` keeps the current order, and `clearCurrentOrder` keeps the list and clears the current order |
| `OrderSlice.HistoryIsAppendOnly` | src/lib/features/orderSlice.ts:13-25 | over any sequence of actions the history grows by exactly the number of `addOrder`s and every earlier order is still there, shifted back, with at most its status changed |
| `OrderSlice.OrderHistory.constructor` | src/lib/features/orderSlice.ts:4-7 | no orders and no current order |
| `OrderSlice.OrderHistory.AddOrder` | src/lib/features/orderSlice.ts:13-16 | the order goes to index 0 in front of the unchanged old list and becomes the current order |
| `OrderSlice.OrderHistory.UpdateOrderStatus` | src/lib/features/orderSlice.ts:17-22 | the list becomes `StatusUpdated` of the old one; the current order keeps its stored status |
| `OrderSlice.OrderHistory.ClearCurrentOrder` | src/lib/features/orderSlice.ts:23-25 | the current order becomes none and the list is unchanged |
| `CouponInput.LookupCoupon` | src/components/CouponInput.tsx:17-24 | a code is known exactly when its upper-cased form is SAVE10, SAVE20 or FLAT50; these give 10 percent, 20 percent and a fixed 50 |
| `CouponInput.LookupIgnoresCase` | src/components/CouponInput.tsx:24 | codes that differ only in letter case look up the same coupon |
| `CouponInput.EmptyCodeIsUnknown` | src/components/CouponInput.tsx:24-31 | the empty code is not a coupon |
| `CouponInput.Applied` | src/components/CouponInput.tsx:23-33 | `onApply` is called exactly for a known code, with its raw discount number; the upper-cased code, a registry key, is recorded as applied; an unknown code changes nothing |
| `CouponInput.PercentageReportedAsNumber` | src/components/CouponInput.tsx:18-28 | SAVE10 in any case is a percentage coupon yet reports the plain number 10 |
| `CouponInput.Removed` | src/components/CouponInput.tsx:35-40 | removal empties the field, clears the applied code and reports 0 |
| `CouponInput.ApplyThenRemove` | src/components/CouponInput.tsx:23-40 | apply followed by remove returns the box to its initial state |
| `CouponInput.ApplyEnabled` | src/components/CouponInput.tsx:69 | the button is enabled exactly for a non-empty code, so it never fires for an unknown empty code |
| `CouponInput.CouponBox.constructor` | src/components/CouponInput.tsx:13-14 | empty field, nothing applied |
| `CouponInput.CouponBox.EditCode` | src/components/CouponInput.tsx:61 | the field stores the upper-cased input, so it always holds upper-case text |
| `CouponInput.CouponBox.HandleApply` | src/components/CouponInput.tsx:23-33 | state and callback argument are those of `Applied`; with upper-case text in the field, the applied code is the field's text |
| `CouponInput.CouponBox.HandleRemove` | src/components/CouponInput.tsx:35-40 | state and callback argument are those of `Removed` |
| `Pricing.ShippingFee` | src/app/checkout/page.tsx:37 | the fee is 0 exactly when the subtotal exceeds 50 and 5.99 otherwise |
| `Pricing.Tax` | src/app/checkout/page.tsx:36-38 | the tax is a tenth of the subtotal, between 0 and the subtotal for non-negative subtotals |
| `Pricing.ExactlyFiftyPaysShipping` | src/app/cart/page.tsx:21 | a subtotal of exactly 50 pays the 5.99 fee |
| `Pricing.ChargedDropsAtThreshold` | src/app/cart/page.tsx:21-24 | a subtotal just above 50 costs less in total than 50 itself |
| `Pricing.ChargedMonotoneOnEachSide` | src/app/cart/page.tsx:21-24 | on either side of the threshold a larger subtotal costs more |
| `CartPage.FinalTotal` | src/app/cart/page.tsx:20-24 | the total plus the discount is subtotal + tax + shipping; a non-positive discount never lowers it |
| `CartPage.FlatCouponCanMakeTotalNegative` | src/app/cart/page.tsx:23-24 | FLAT50 on a subtotal under 40 gives a negative total: nothing clamps it |
| `CartPage.InitialTotalIsCharged` | src/app/cart/page.tsx:18 | the discount starts at 0, so before any coupon the page charges the full total, and an unknown code keeps it so |
| `CartPage.DiscountAfter` | src/app/cart/page.tsx:187 | an `onApply` call replaces the discount, no call keeps it |
| `CartPage.PercentageCouponTakenAsAmount` | src/app/cart/page.tsx:23-24 | applying SAVE10 takes 10 off whatever the subtotal |
| `CartPage.DiscountFollowsCouponBox` | src/app/cart/page.tsx:18-24 | an unknown code keeps the old discount; removing the coupon restores the undiscounted total |
| `CartPage.FreeShippingHint` | src/app/cart/page.tsx:158-161 | the hint is shown exactly when the subtotal is under 50; its positive amount brings the subtotal to exactly 50 |
| `CartPage.HintMissesFreeShipping` | src/app/cart/page.tsx:158-161 | adding the hinted amount still pays the fee, and at exactly 50 the fee is charged with no hint |
| `CartPage.FreeShippingHintCorrected` | src/app/cart/page.tsx:158-161 | the corrected hint is shown exactly when the fee is charged; its amount is positive, earns free shipping, and one cent less would not |
| `CartPage.CorrectedHintExtendsWritten` | src/app/cart/page.tsx:158-161 | wherever the written hint shows, the corrected one shows one cent more |
| `CartPage.HandleCheckout` | src/app/cart/page.tsx:33-39 | checkout is refused exactly for an empty cart |
| `CartPage.HandleClearCart` | src/app/cart/page.tsx:26-31 | `clearCart` is dispatched, once, exactly when the dialog is confirmed |
| `CheckoutPage.FinalTotal` | src/app/checkout/page.tsx:36-39 | the checkout total is the cart page's total with discount 0: 1.1 times the subtotal, plus 5.99 up to 50 |
| `CheckoutPage.GroupDigitsInsertsOnlySpaces` | src/app/checkout/page.tsx:53 | the 4-digit grouping only inserts white space |
| `CheckoutPage.GroupDigits` | src/app/checkout/page.tsx:53 | the global 4-digit grouping lengthens the input by at most one character per four, and every character it outputs is a space or comes from the input |
| `CheckoutPage.FormatCardNumber` | src/app/checkout/page.tsx:52-54 | the formatted number has exactly the input's non-blank characters in order, and no white space at either end |
| `CheckoutPage.CardNumberIdempotent` | src/app/checkout/page.tsx:52-54 | formatting twice is formatting once |
| `CheckoutPage.GroupedDigitsLayout` | src/app/checkout/page.tsx:53 | on digits, grouping puts a space at every fifth position and nowhere else |
| `CheckoutPage.CardNumberLength` | src/app/checkout/page.tsx:53 | n > 0 typed digits are shown in n + (n-1)/4 characters; sixteen fill the field's 19 |
| `CheckoutPage.InsertSlash` | src/app/checkout/page.tsx:58 | with fewer than three digits nothing changes; otherwise one '/' goes in at index 2, with the first two digits before it and the rest after it in order |
| `CheckoutPage.FormatExpiry` | src/app/checkout/page.tsx:57-59 | at most five characters: the first four digits of the input, with '/' at index 2 exactly when there are three or more digits; with two or fewer, just the digits |
| `CheckoutPage.ExpiryIdempotent` | src/app/checkout/page.tsx:57-59 | formatting twice is formatting once |
| `CheckoutPage.HandleShippingChange` | src/app/checkout/page.tsx:41-46 | the named field takes the typed value, every other field is kept |
| `CheckoutPage.HandlePaymentChange` | src/app/checkout/page.tsx:48-65 | the named field takes the typed value, formatted for card number and expiry; every other field is kept |
| `CheckoutPage.PaymentFormStable` | src/app/checkout/page.tsx:48-65 | feeding a field's shown value back leaves the form unchanged |
| `CheckoutPage.InitialShippingInfo` | src/app/checkout/page.tsx:18-27 | every shipping field starts empty except the country, "United States" |
| `CheckoutPage.InitialPaymentInfo` | src/app/checkout/page.tsx:29-34 | every payment field starts empty |
| `CheckoutPage.OrderId` | src/app/checkout/page.tsx:83 | the id is "ORD-" followed by the clock reading |
| `CheckoutPage.OrderIdsDiffer` | src/app/checkout/page.tsx:83 | different clock readings give different order ids |
| `CheckoutPage.HandleSubmit` | src/app/checkout/page.tsx:67-96 | an order is placed exactly when name, email, address and all four payment fields are non-empty; it has status processing, the cart's items, the form's shipping details and the checkout total, and `addOrder` is dispatched before `clearCart` |
| `CheckoutPage.FreshFormRejected` | src/app/checkout/page.tsx:18-74 | the untouched form is rejected for missing shipping details |
| `CheckoutPage.PlacedOrderEntersHistory` | src/app/checkout/page.tsx:82-91 | once added to the order history, the placed order is the newest and the current order, in front of the old history |
| `CheckoutPage.View` | src/app/checkout/page.tsx:98-101 | the form is shown exactly for a non-empty cart; an empty one redirects to the cart |
| `CardItem.HandleRemove` | src/components/CardItem.tsx:18-21 | `removeFromCart` with the line's own id |
| `CardItem.HandleIncrement` | src/components/CardItem.tsx:23-25 | `updateQuantity` for the same id with one more |
| `CardItem.HandleDecrement` | src/components/CardItem.tsx:27-31 | an update is issued exactly when the quantity exceeds 1, asking for one less and so never less than 1 |
| `CardItem.DecrementDisabled` | src/components/CardItem.tsx:72 | the minus button is disabled exactly when a click would do nothing |
| `CardItem.IncrementThenDecrement` | src/components/CardItem.tsx:23-31 | a decrement after an applied increment asks for the original quantity |
| `ProductCard.IsListed` | src/components/ProductCard.tsx:27-28 | membership is by id: some listed product has the id, and a listed product is always a member |
| `ProductCard.ListedById` | src/components/ProductCard.tsx:27-28 | products with one id are members alike |
| `ProductCard.HandleAddToCart` | src/components/ProductCard.tsx:30-37 | `addToCart` with exactly the card's product |
| `ProductCard.HandleToggleWishlist` | src/components/ProductCard.tsx:39-48 | remove by id exactly when listed, otherwise add the product |
| `ProductCard.HandleAddToComparison` | src/components/ProductCard.tsx:50-60 | the limit error exactly at four or more; `addToComparison` exactly when there is room and the product is not compared |
| `ProductCard.CardGuardMatchesStore` | src/components/ProductCard.tsx:50-60 | the card dispatches exactly when the comparison store would change, and then the store appends the product |
| `LiveSearch.Matches` | src/components/LiveSearch.tsx:54-56 | the empty query matches every product; a match needs a title or category at least as long as the query |
| `LiveSearch.Matching` | src/components/LiveSearch.tsx:54-56 | exactly the matching products of the catalog, in catalog order |
| `LiveSearch.Suggestions` | src/components/LiveSearch.tsx:54-57 | the first five matches in catalog order: at most five, each matching title or category case-insensitively; fewer than five only when no other product matches |
| `LiveSearch.SuggestionsAreFirstMatches` | src/components/LiveSearch.tsx:54-57 | a match preceded by fewer than five other matches is suggested, at the position given by how many matches precede it |
| `LiveSearch.SuggestionsAfterDebounce` | src/components/LiveSearch.tsx:40-44 | queries of length 2 or less clear the suggestions; longer ones are searched |
| `LiveSearch.SuggestionsIgnoreQueryCase` | src/components/LiveSearch.tsx:55-56 | queries equal after lower-casing give the same suggestions |
| `LiveSearch.OtherSearches` | src/components/LiveSearch.tsx:68 | the earlier searches other than the query, every one of them, in their order |
| `LiveSearch.RecordSearch` | src/components/LiveSearch.tsx:67-68 | a blank query is not recorded; otherwise the untrimmed query comes first and occurs nowhere else, followed by the earlier other searches in order, at most five in all |
| `LiveSearch.RecordSearchKeepsRecent` | src/components/LiveSearch.tsx:68 | an earlier search with fewer than four other searches before it survives, one place behind the query and closed up over dropped copies |
| `LiveSearch.RecordSearchNoRepeats` | src/components/LiveSearch.tsx:68 | a list without repeats stays without repeats |
| `LiveSearch.RepeatSearchIsStable` | src/components/LiveSearch.tsx:68 | searching again for the latest search leaves a valid list unchanged |
| `LiveSearch.HandleSearch` | src/components/LiveSearch.tsx:66-75 | for the search it is given: a non-blank one is recorded, the dropdown closes and the field empties; a blank one changes nothing |
| `LiveSearch.OtherSearchesOfListed` | src/components/LiveSearch.tsx:68 | without repeats, filtering out a listed search cuts exactly that entry out of the list |
| `LiveSearch.RecordingListedSearchReorders` | src/components/LiveSearch.tsx:68 | recording a listed search in a valid list keeps its length and its entries, each as often as before |
| `LiveSearch.ClickRecentSearch` | src/components/LiveSearch.tsx:178-181 | a click on a recent search moves it, unless blank, to the front, empties the field and closes the dropdown; a blank one changes nothing |
| `LiveSearch.ClickKeepsEntries` | src/components/LiveSearch.tsx:178-181 | a click neither adds nor drops a recent search and keeps the list free of repeats |
| `LiveSearch.ClearRecentSearches` | src/components/LiveSearch.tsx:168-171 | the recent list becomes empty, the rest of the box is kept |
| `NotificationCenter.TimeBucket` | src/components/NotificationCenter.tsx:40-48 | "just now" exactly under a minute, negative differences included; otherwise minutes under an hour, hours under a day, days beyond, each the floored count of units elapsed |
| `NotificationCenter.FormatTime` | src/components/NotificationCenter.tsx:37-49 | "Just now" exactly under a minute, and the text always reads back as its bucket and count |
| `NotificationCenter.LabelTextReadsBack` | src/components/NotificationCenter.tsx:45-48 | distinct labels never share a text |
| `NotificationCenter.Badge` | src/components/NotificationCenter.tsx:60-66 | no badge exactly when the count is 0 or less, "9+" exactly above 9, otherwise one digit that reads back as the count |
| `NotificationCenter.ClickNotification` | src/components/NotificationCenter.tsx:29-35 | `markAsRead` of the clicked id is always dispatched; navigation happens exactly for a non-empty link and then closes the menu |
| `NotificationCenter.ClickedNotificationIsRead` | src/components/NotificationCenter.tsx:29-30 | in a feed with distinct ids the dispatched command leaves the clicked notification read |

## Left out

- **Cart and wishlist reducers.** `src/lib/features/cartSlice.ts` and `src/lib/features/wishlistSlice.ts` are not part of this model. Their commands (`addToCart`, `removeFromCart`, `updateQuantity`, `clearCart`, `addToWishlist`, `removeFromWishlist`) appear only as `Action` values whose effect is not specified.
- **Store composition.** The Redux store, Immer drafts and action plumbing of `src/lib/store.ts` are left out. The store registers no `notifications` reducer, although `src/components/NotificationCenter.tsx:11` reads `state.notifications`. The notification slice is modelled on its own.
- **Presentation.** Rendering, animation, icons, toasts, `router.push` and `confirm()` are left out. Navigation targets and the dialog's answer appear as values or parameters.
- **Network and storage.** The catalog fetched from fakestoreapi.com is a parameter. The `localStorage` reads and writes of recent searches are left out.
- **Debounce and listeners.** The 300 ms debounce and the click-outside listener are left out. `SuggestionsAfterDebounce` is what the timer computes when it fires.
- **Clock.** `Date.now()` and `new Date()` are parameters: a millisecond reading for ids, an ISO string for dates, and a millisecond difference for relative times.
- **Numbers.** Prices are exact reals. IEEE-754 rounding and `toFixed(2)` display formatting are left out.
- **Text.** `toUpperCase`/`toLowerCase` are modelled on ASCII letters only. String lengths count characters, not UTF-16 code units.
- **Browser checks.** The browser's own `required` check on the shipping inputs is not modelled. The `maxLength` limits on the card, expiry and CVV inputs are not modelled either: `CardNumberLength` shows that sixteen digits fit the 19 allowed.
- **Optional fields.** Presentation-only optional record fields are omitted: images, variants, reviews, stock and flash-sale data, tracking data, and coupon expiry use.
- CheckoutPage.FormatCardNumber: its contract does not state the exact position of every inserted space for inputs that mix digits and other characters. The grouping itself is `GroupDigits`, and its layout on digit strings is `GroupedDigitsLayout`.

## Findings

| source | as written | input that shows it | evidently intended | confidence | as-written member | corrected member |
|---|---|---|---|---|---|---|
| src/app/cart/page.tsx:158-161 | the hint says "Add $(50 - totalPrice) more for FREE shipping" and is shown only when `totalPrice < 50`, but shipping is free only when `totalPrice > 50` (:21) | `totalPrice = 30`: the hint asks for 20 more, and the resulting 50 still pays 5.99; `totalPrice = 50` pays 5.99 with no hint | the hint appears whenever the fee is charged and names an amount that actually makes shipping free (one cent past 50) | high (not executed) | `CartPage.HintMissesFreeShipping` | `CartPage.FreeShippingHintCorrected` |

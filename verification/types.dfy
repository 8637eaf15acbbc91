/** The shop's records (src/types/index.ts) as values. Prices and amounts
    are exact `real`s; ids are the source's numbers (products) and strings
    (orders, notifications). Optional presentation-only fields (images,
    variants, reviews, stock, flash-sale data, tracking data) are omitted. */
module Types {
  import opened Optional
  import opened Sequences

  datatype Rating = Rating(rate: real, count: int)

  datatype Product = Product(
    id: int,
    title: string,
    price: real,
    description: string,
    category: string,
    image: string,
    rating: Rating)

  /** A cart line: a product together with how many of it are in the cart. */
  datatype CartItem = CartItem(product: Product, quantity: int)
  {
    function Id(): int { product.id }
  }

  datatype CartState = CartState(items: seq<CartItem>, totalQuantity: int, totalPrice: real)

  datatype ShippingInfo = ShippingInfo(
    fullName: string,
    email: string,
    phone: string,
    address: string,
    city: string,
    state: string,
    zipCode: string,
    country: string)

  datatype PaymentInfo = PaymentInfo(
    cardNumber: string,
    cardName: string,
    expiryDate: string,
    cvv: string)

  datatype OrderStatus = Pending | Processing | Shipped | Delivered | Cancelled

  datatype Order = Order(
    id: string,
    items: seq<CartItem>,
    shippingInfo: ShippingInfo,
    totalAmount: real,
    orderDate: string,
    status: OrderStatus)

  datatype OrderState = OrderState(orders: seq<Order>, currentOrder: Option<Order>)

  datatype CouponType = Percentage | Fixed

  datatype Coupon = Coupon(
    code: string,
    discount: real,
    kind: CouponType,
    minAmount: Option<real>,
    expiryDate: string,
    isActive: bool,
    description: Option<string>)

  datatype WishlistState = WishlistState(items: seq<Product>)

  datatype ComparisonState = ComparisonState(products: seq<Product>)

  datatype RecentlyViewedState = RecentlyViewedState(products: seq<Product>)

  datatype NotificationKind = Info | Success | Warning | Error

  datatype Notification = Notification(
    id: string,
    title: string,
    message: string,
    kind: NotificationKind,
    date: string,
    read: bool,
    link: Option<string>)

  datatype NotificationState = NotificationState(notifications: seq<Notification>, unreadCount: int)

  /** `products.some(p => p.id === id)`. */
  predicate HasProductId(products: seq<Product>, id: int)
  {
    exists k :: 0 <= k < |products| && products[k].id == id
  }

  function ProductId(p: Product): int
  {
    p.id
  }

  /** No two products in the list share an id. */
  ghost predicate DistinctProductIds(products: seq<Product>)
  {
    DistinctBy(products, ProductId)
  }

  /** Dropping products keeps ids distinct. */
  lemma SubsequenceDistinctProductIds(r: seq<Product>, products: seq<Product>)
    requires IsSubsequence(r, products)
    ensures DistinctProductIds(products) ==> DistinctProductIds(r)
  {
    if DistinctProductIds(products) {
      SubsequenceDistinctBy(r, products, ProductId);
    }
  }
}

/** The Redux actions the components dispatch. The cart and wishlist
    reducers are not part of this model: their actions are recorded as
    commands whose effect is left unspecified. */
module Actions {
  import opened Types

  datatype Action =
    | AddToCart(product: Product)
    | RemoveFromCart(productId: int)
    | UpdateQuantity(productId: int, quantity: int)
    | ClearCart
    | AddToWishlist(product: Product)
    | RemoveFromWishlist(productId: int)
    | AddToComparison(product: Product)
    | AddOrder(order: Order)
    | MarkAsRead(notificationId: string)
}

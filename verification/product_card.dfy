/** The buttons of a product card (src/components/ProductCard.tsx): the
    membership tests against the wishlist and the comparison list, and the
    command each button dispatches. */
module ProductCard {
  import opened Types
  import opened Actions
  import ComparisonSlice

  /** `isInWishlist` / `isInComparison`: membership is by product id, so a
      product with changed details still counts as present. */
  function IsListed(listed: seq<Product>, product: Product): (listedAlready: bool)
    ensures listedAlready <==> exists k :: 0 <= k < |listed| && listed[k].id == product.id
    ensures product in listed ==> listedAlready
  {
    HasProductId(listed, product.id)
  }

  /** Two products with one id are both listed or both not. */
  lemma ListedById(listed: seq<Product>, a: Product, b: Product)
    requires a.id == b.id
    ensures IsListed(listed, a) == IsListed(listed, b)
  {
  }

  /** `handleAddToCart`: the card's own product goes to the cart. */
  function HandleAddToCart(product: Product): (command: Action)
    ensures command.AddToCart? && command.product == product
  {
    AddToCart(product)
  }

  /** `handleToggleWishlist`: remove by id when listed, add otherwise. */
  function HandleToggleWishlist(wishlist: seq<Product>, product: Product): (command: Action)
    ensures command.RemoveFromWishlist? <==> IsListed(wishlist, product)
    ensures command.RemoveFromWishlist? ==> command.productId == product.id
    ensures !command.RemoveFromWishlist? ==> command == AddToWishlist(product)
  {
    if IsListed(wishlist, product) then RemoveFromWishlist(product.id) else AddToWishlist(product)
  }

  /** What the compare button does. */
  datatype ComparisonClick =
    | LimitReached
    | AlreadyCompared
    | Dispatch(command: Action)

  /** `handleAddToComparison`: with four or more compared products an error
      is shown and nothing dispatched; a product already compared is
      silently skipped; otherwise `addToComparison` is dispatched. */
  function HandleAddToComparison(compared: seq<Product>, product: Product): (r: ComparisonClick)
    ensures r == LimitReached <==> |compared| >= ComparisonSlice.MaxCompared
    ensures r.Dispatch? <==> |compared| < ComparisonSlice.MaxCompared && !IsListed(compared, product)
    ensures r.Dispatch? ==> r.command == AddToComparison(product)
  {
    if |compared| >= ComparisonSlice.MaxCompared then LimitReached
    else if IsListed(compared, product) then AlreadyCompared
    else Dispatch(AddToComparison(product))
  }

  /** The card's guard and the store's own guard agree: the card dispatches
      exactly when the comparison list would change, and then the list it
      would produce has the product appended. */
  lemma CardGuardMatchesStore(compared: seq<Product>, product: Product)
    ensures HandleAddToComparison(compared, product).Dispatch?
      <==> ComparisonSlice.Added(compared, product) != compared
    ensures HandleAddToComparison(compared, product).Dispatch? ==>
      ComparisonSlice.Added(compared, product) == compared + [product]
  {
    if !HandleAddToComparison(compared, product).Dispatch? {
      assert ComparisonSlice.Added(compared, product) == compared;
    } else {
      assert |ComparisonSlice.Added(compared, product)| == |compared| + 1;
    }
  }
}

/** The recently-viewed list (src/lib/features/recentlyViewedSlice.ts):
    most recent first, each product once, at most ten. */
module RecentlyViewedSlice {
  import opened Optional
  import opened Sequences
  import opened Types

  const MaxRecent: nat := 10

  /** `products.findIndex(p => p.id === id)`, with `None` for -1. */
  function FindProductIndex(ps: seq<Product>, id: int): (r: Option<nat>)
    ensures r.Some? ==> r.value < |ps| && ps[r.value].id == id
    ensures r.Some? ==> forall k :: 0 <= k < r.value ==> ps[k].id != id
    ensures r.None? <==> !HasProductId(ps, id)
  {
    FirstIndex(ps, (q: Product) => q.id == id)
  }

  /** The list without the earlier entry for `id`, as the `splice` leaves it. */
  function WithoutEarlierView(ps: seq<Product>, id: int): seq<Product>
  {
    match FindProductIndex(ps, id)
    case Some(i) => RemoveAt(ps, i)
    case None => ps
  }

  /** The list after `addToRecentlyViewed(p)`: `p` moves (or comes) to the
      front and the list is cut back to ten. */
  function Viewed(ps: seq<Product>, p: Product): (r: seq<Product>)
    ensures 0 < |r| <= MaxRecent && r[0] == p
  {
    Take([p] + WithoutEarlierView(ps, p.id), MaxRecent)
  }

  /** The products other than `p` keep their relative order. */
  lemma ViewedKeepsOrder(ps: seq<Product>, p: Product)
    ensures IsSubsequence(Viewed(ps, p)[1..], ps)
  {
    var rest := WithoutEarlierView(ps, p.id);
    var r := Viewed(ps, p);
    assert r[1..] == rest[..|r| - 1];
    PrefixIsSubsequence(rest, |r| - 1);
    match FindProductIndex(ps, p.id)
    case Some(i) =>
      RemoveAtIsSubsequence(ps, i);
      SubsequenceTransitive(r[1..], rest, ps);
    case None =>
  }

  /** With distinct ids before, ids stay distinct and `p`'s id occurs only
      at the front. */
  lemma ViewedDistinct(ps: seq<Product>, p: Product)
    requires DistinctProductIds(ps)
    ensures DistinctProductIds(Viewed(ps, p))
    ensures forall k :: 0 < k < |Viewed(ps, p)| ==> Viewed(ps, p)[k].id != p.id
  {
    var rest := WithoutEarlierView(ps, p.id);
    assert forall k :: 0 <= k < |rest| ==> rest[k].id != p.id by {
      match FindProductIndex(ps, p.id)
      case Some(i) =>
        forall k | 0 <= k < |rest| ensures rest[k].id != p.id {
          var k' := if k < i then k else k + 1;
          assert rest[k] == ps[k'];
        }
      case None =>
    }
    assert IsSubsequence(rest, ps) by {
      match FindProductIndex(ps, p.id)
      case Some(i) => RemoveAtIsSubsequence(ps, i);
      case None => SubsequenceReflexive(ps);
    }
    SubsequenceDistinctProductIds(rest, ps);
    var whole := [p] + rest;
    assert DistinctProductIds(whole) by {
      forall i, j | 0 <= i < j < |whole| ensures whole[i].id != whole[j].id {
        assert whole[j] == rest[j - 1];
        if i > 0 {
          assert whole[i] == rest[i - 1];
        }
      }
    }
    var r := Viewed(ps, p);
    PrefixIsSubsequence(whole, |r|);
    SubsequenceDistinctProductIds(r, whole);
  }

  /** Viewing a product already in the list does not change its length. */
  lemma ReviewKeepsLength(ps: seq<Product>, p: Product)
    requires HasProductId(ps, p.id) && |ps| <= MaxRecent
    ensures |Viewed(ps, p)| == |ps|
  {
  }

  /** Viewing a new product puts it in front of the old list; when ten were
      already there, the oldest one falls off the end. */
  lemma NewViewDropsOldest(ps: seq<Product>, p: Product)
    requires !HasProductId(ps, p.id)
    ensures |ps| < MaxRecent ==> Viewed(ps, p) == [p] + ps
    ensures |ps| >= MaxRecent ==> Viewed(ps, p) == [p] + ps[..MaxRecent - 1]
  {
    if |ps| >= MaxRecent {
      assert ([p] + ps)[..MaxRecent] == [p] + ps[..MaxRecent - 1];
    }
  }

  class RecentlyViewed {
    var products: seq<Product>

    /** At most ten products, no id twice. */
    ghost predicate Valid()
      reads this
    {
      |products| <= MaxRecent && DistinctProductIds(products)
    }

    constructor ()
      ensures products == [] && Valid()
    {
      products := [];
    }

    method AddToRecentlyViewed(p: Product)
      requires Valid()
      modifies this
      ensures Valid()
      ensures products == Viewed(old(products), p)
    {
      var found := FindProductIndex(products, p.id);
      if found.Some? {
        var i := found.value;
        products := products[..i] + products[i + 1..];
      }
      products := [p] + products;
      if |products| > MaxRecent {
        products := products[..MaxRecent];
      }
      ViewedDistinct(old(products), p);
    }

    method ClearRecentlyViewed()
      modifies this
      ensures Valid()
      ensures products == []
    {
      products := [];
    }
  }
}

/** The product-comparison list (src/lib/features/comparisonSlice.ts): at
    most four products with distinct ids, in the order they were added. */
module ComparisonSlice {
  import opened Sequences
  import opened Types

  const MaxCompared: nat := 4

  /** The list after `addToComparison(p)`: `p` is appended when there is
      room and its id is new; otherwise the call is silently ignored. */
  function Added(ps: seq<Product>, p: Product): (r: seq<Product>)
    ensures |ps| <= MaxCompared ==> |r| <= MaxCompared
    ensures DistinctProductIds(ps) ==> DistinctProductIds(r)
    ensures |ps| < MaxCompared && !HasProductId(ps, p.id) ==> r == ps + [p]
    ensures |ps| >= MaxCompared || HasProductId(ps, p.id) ==> r == ps
    ensures HasProductId(r, p.id) <==> HasProductId(ps, p.id) || |ps| < MaxCompared
  {
    if |ps| < MaxCompared && !HasProductId(ps, p.id) then
      assert (ps + [p])[|ps|] == p;
      ps + [p]
    else ps
  }

  /** `products.filter(p => p.id !== id)`: every product with the id goes,
      the rest keep their order; an absent id changes nothing. */
  function WithoutProduct(ps: seq<Product>, id: int): (r: seq<Product>)
    ensures !HasProductId(r, id)
    ensures forall k :: 0 <= k < |ps| && ps[k].id != id ==> ps[k] in r
    ensures IsSubsequence(r, ps)
    ensures DistinctProductIds(ps) ==> DistinctProductIds(r)
    ensures !HasProductId(ps, id) ==> r == ps
  {
    var keep := (q: Product) => q.id != id;
    var r := Filter(ps, keep);
    SubsequenceDistinctProductIds(r, ps);
    if !HasProductId(ps, id) then
      FilterKeepsAll(ps, keep);
      r
    else r
  }

  /** Adding the products of `qs` one after another, each through
      `addToComparison`. */
  function AddAll(ps: seq<Product>, qs: seq<Product>): seq<Product>
    decreases |qs|
  {
    if qs == [] then ps else AddAll(Added(ps, qs[0]), qs[1..])
  }

  /** However many products are added, the list keeps its bound and its
      distinct ids. */
  lemma {:induction false} AddAllBounded(ps: seq<Product>, qs: seq<Product>)
    requires |ps| <= MaxCompared && DistinctProductIds(ps)
    ensures |AddAll(ps, qs)| <= MaxCompared && DistinctProductIds(AddAll(ps, qs))
    decreases |qs|
  {
    if qs != [] {
      AddAllBounded(Added(ps, qs[0]), qs[1..]);
    }
  }

  /** Products with distinct ids offered one by one: the first four are kept
      in order and every later one is rejected. */
  lemma {:induction false} FirstFourKept(ps: seq<Product>, qs: seq<Product>)
    requires |ps| <= MaxCompared && DistinctProductIds(ps + qs)
    ensures AddAll(ps, qs) == Take(ps + qs, MaxCompared)
    decreases |qs|
  {
    if qs != [] {
      var q := qs[0];
      if |ps| < MaxCompared {
        assert !HasProductId(ps, q.id) by {
          forall k | 0 <= k < |ps| ensures ps[k].id != q.id {
            assert (ps + qs)[k] == ps[k] && (ps + qs)[|ps|] == q;
          }
        }
        assert ps + [q] + qs[1..] == ps + qs;
      } else {
        assert (ps + qs)[..MaxCompared] == ps;
        assert (ps + qs[1..])[..MaxCompared] == ps;
      }
      var next := Added(ps, q);
      assert DistinctProductIds(next + qs[1..]) by {
        var whole := ps + qs;
        forall i, j | 0 <= i < j < |next + qs[1..]|
          ensures (next + qs[1..])[i].id != (next + qs[1..])[j].id
        {
          var s := next + qs[1..];
          if |ps| < MaxCompared {
            assert s == whole;
          } else {
            var i' := if i < |ps| then i else i + 1;
            var j' := if j < |ps| then j else j + 1;
            assert s[i] == whole[i'] && s[j] == whole[j'];
          }
        }
      }
      FirstFourKept(next, qs[1..]);
    }
  }

  class Comparison {
    var products: seq<Product>

    /** At most four products, no id twice. */
    ghost predicate Valid()
      reads this
    {
      |products| <= MaxCompared && DistinctProductIds(products)
    }

    constructor ()
      ensures products == [] && Valid()
    {
      products := [];
    }

    method AddToComparison(p: Product)
      requires Valid()
      modifies this
      ensures Valid()
      ensures products == Added(old(products), p)
    {
      if |products| < MaxCompared {
        var alreadyCompared := HasProductId(products, p.id);
        if !alreadyCompared {
          products := products + [p];
        }
      }
    }

    method RemoveFromComparison(id: int)
      requires Valid()
      modifies this
      ensures Valid()
      ensures products == WithoutProduct(old(products), id)
    {
      products := WithoutProduct(products, id);
    }

    method ClearComparison()
      modifies this
      ensures Valid()
      ensures products == []
    {
      products := [];
    }
  }
}

/** The order history (src/lib/features/orderSlice.ts): orders newest
    first, never removed, plus the order placed last for the confirmation
    page. */
module OrderSlice {
  import opened Optional
  import opened Sequences
  import opened Types

  /** `orders.find(o => o.id === id)`, as the index of what it finds. */
  function FindOrderIndex(os: seq<Order>, id: string): (r: Option<nat>)
    ensures r.Some? ==> r.value < |os| && os[r.value].id == id
    ensures r.Some? ==> forall k :: 0 <= k < r.value ==> os[k].id != id
    ensures r.None? <==> forall k :: 0 <= k < |os| ==> os[k].id != id
  {
    FirstIndex(os, (o: Order) => o.id == id)
  }

  /** `a` is `b` with possibly another status. */
  predicate SameExceptStatus(a: Order, b: Order)
  {
    a.(status := b.status) == b
  }

  /** The list after `updateOrderStatus(id, status)`: the first order with
      that id takes the new status, whatever its old one was; every other
      order and every other field is unchanged. */
  function StatusUpdated(os: seq<Order>, id: string, status: OrderStatus): (r: seq<Order>)
    ensures |r| == |os|
    ensures forall k :: 0 <= k < |r| ==> SameExceptStatus(r[k], os[k])
    ensures forall k :: 0 <= k < |r| && r[k] != os[k] ==> FindOrderIndex(os, id) == Some(k)
    ensures FindOrderIndex(os, id).Some? ==> r[FindOrderIndex(os, id).value].status == status
    ensures FindOrderIndex(os, id).None? ==> r == os
  {
    match FindOrderIndex(os, id)
    case Some(i) => os[i := os[i].(status := status)]
    case None => os
  }

  /** The three actions of the slice. */
  datatype OrderAction =
    | AddOrderAction(order: Order)
    | UpdateOrderStatusAction(id: string, status: OrderStatus)
    | ClearCurrentOrderAction

  /** `after` is `before` with `m` orders put in front, each older order
      keeping everything but possibly its status. */
  ghost predicate KeepsOlder(before: seq<Order>, after: seq<Order>, m: nat)
  {
    && |after| == |before| + m
    && forall k :: 0 <= k < |before| ==> SameExceptStatus(after[k + m], before[k])
  }

  /** How many orders an action adds. */
  function Added(a: OrderAction): nat
  {
    if a.AddOrderAction? then 1 else 0
  }

  /** The slice's reducer, as a function from state and action to state. */
  function Reduce(s: OrderState, a: OrderAction): (r: OrderState)
    ensures KeepsOlder(s.orders, r.orders, Added(a))
    ensures a.AddOrderAction? ==> r.orders[0] == a.order && r.currentOrder == Some(a.order)
    ensures a.UpdateOrderStatusAction? ==> r.currentOrder == s.currentOrder
    ensures a.ClearCurrentOrderAction? ==> r.orders == s.orders && r.currentOrder == None
  {
    match a
    case AddOrderAction(o) =>
      PrependKeepsOlder(o, s.orders);
      OrderState([o] + s.orders, Some(o))
    case UpdateOrderStatusAction(id, status) =>
      var orders := StatusUpdated(s.orders, id, status);
      UpdateKeepsOlder(s.orders, orders);
      s.(orders := orders)
    case ClearCurrentOrderAction =>
      UpdateKeepsOlder(s.orders, s.orders);
      s.(currentOrder := None)
  }

  lemma PrependKeepsOlder(o: Order, os: seq<Order>)
    ensures KeepsOlder(os, [o] + os, 1)
  {
    forall k | 0 <= k < |os| ensures SameExceptStatus(([o] + os)[k + 1], os[k]) {
      assert ([o] + os)[k + 1] == os[k];
    }
  }

  lemma UpdateKeepsOlder(os: seq<Order>, r: seq<Order>)
    requires |r| == |os| && forall k :: 0 <= k < |r| ==> SameExceptStatus(r[k], os[k])
    ensures KeepsOlder(os, r, 0)
  {
    forall k | 0 <= k < |os| ensures SameExceptStatus(r[k + 0], os[k]) {
      assert r[k + 0] == r[k];
    }
  }

  function ReduceAll(s: OrderState, actions: seq<OrderAction>): OrderState
    decreases |actions|
  {
    if actions == [] then s else ReduceAll(Reduce(s, actions[0]), actions[1..])
  }

  function AddCount(actions: seq<OrderAction>): nat
  {
    if actions == [] then 0 else Added(actions[0]) + AddCount(actions[1..])
  }

  /** Two steps that each keep the older orders up to status, shifted back
      by the orders they add, keep them across both. */
  lemma ComposeShifts(a: seq<Order>, b: seq<Order>, c: seq<Order>, m: nat, n: nat)
    requires KeepsOlder(a, b, m) && KeepsOlder(b, c, n)
    ensures KeepsOlder(a, c, m + n)
  {
    forall k | 0 <= k < |a|
      ensures SameExceptStatus(c[k + m + n], a[k])
    {
      assert SameExceptStatus(b[k + m], a[k]);
      assert SameExceptStatus(c[k + m + n], b[k + m]);
    }
  }

  /** The history is append-only: each `addOrder` adds exactly one order at
      the front, and every order that was there stays, behind the new ones,
      with at most its status changed. */
  lemma {:induction false} HistoryIsAppendOnly(s: OrderState, actions: seq<OrderAction>)
    ensures KeepsOlder(s.orders, ReduceAll(s, actions).orders, AddCount(actions))
    decreases |actions|
  {
    if actions == [] {
      assert ReduceAll(s, actions) == s;
    } else {
      var next := Reduce(s, actions[0]);
      var rest := actions[1..];
      assert ReduceAll(s, actions) == ReduceAll(next, rest);
      HistoryIsAppendOnly(next, rest);
      ComposeShifts(s.orders, next.orders, ReduceAll(next, rest).orders, Added(actions[0]), AddCount(rest));
    }
  }

  class OrderHistory {
    var orders: seq<Order>
    var currentOrder: Option<Order>

    function State(): OrderState
      reads this
    {
      OrderState(orders, currentOrder)
    }

    constructor ()
      ensures orders == [] && currentOrder == None
    {
      orders := [];
      currentOrder := None;
    }

    method AddOrder(order: Order)
      modifies this
      ensures orders == [order] + old(orders)
      ensures currentOrder == Some(order)
      ensures State() == Reduce(old(State()), AddOrderAction(order))
    {
      orders := [order] + orders;
      currentOrder := Some(order);
    }

    /** Updates the order inside the list only: `currentOrder` keeps the
        status it was stored with. */
    method UpdateOrderStatus(id: string, status: OrderStatus)
      modifies this
      ensures orders == StatusUpdated(old(orders), id, status)
      ensures currentOrder == old(currentOrder)
      ensures State() == Reduce(old(State()), UpdateOrderStatusAction(id, status))
    {
      var found := FindOrderIndex(orders, id);
      if found.Some? {
        var i := found.value;
        orders := orders[i := orders[i].(status := status)];
      }
    }

    method ClearCurrentOrder()
      modifies this
      ensures orders == old(orders)
      ensures currentOrder == None
      ensures State() == Reduce(old(State()), ClearCurrentOrderAction)
    {
      currentOrder := None;
    }
  }
}

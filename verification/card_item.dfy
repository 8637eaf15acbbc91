/** The buttons of one cart line (src/components/CardItem.tsx): each
    handler chooses a single cart command from the line it belongs to. */
module CardItem {
  import opened Optional
  import opened Types
  import opened Actions

  /** `handleRemove`: remove the line's own product. */
  function HandleRemove(item: CartItem): (command: Action)
    ensures command.RemoveFromCart? && command.productId == item.product.id
  {
    RemoveFromCart(item.Id())
  }

  /** `handleIncrement`: ask for one more of the same product. */
  function HandleIncrement(item: CartItem): (command: Action)
    ensures command.UpdateQuantity? && command.productId == item.product.id
    ensures command.quantity == item.quantity + 1
  {
    UpdateQuantity(item.Id(), item.quantity + 1)
  }

  /** `handleDecrement`: ask for one fewer, but only while more than one is
      in the cart, so no request ever asks for less than one. */
  function HandleDecrement(item: CartItem): (command: Option<Action>)
    ensures command.Some? <==> item.quantity > 1
    ensures command.Some? ==>
      && command.value.UpdateQuantity?
      && command.value.productId == item.product.id
      && command.value.quantity == item.quantity - 1
      && command.value.quantity >= 1
  {
    if item.quantity > 1 then Some(UpdateQuantity(item.Id(), item.quantity - 1)) else None
  }

  /** The minus button's `disabled={item.quantity <= 1}`: disabled exactly
      when a click would do nothing. */
  function DecrementDisabled(item: CartItem): (disabled: bool)
    ensures disabled <==> HandleDecrement(item).None?
  {
    item.quantity <= 1
  }

  /** If the cart applies an increment, a decrement on the updated line asks
      for the quantity the line started with. */
  lemma IncrementThenDecrement(item: CartItem)
    requires item.quantity >= 1
    ensures HandleDecrement(item.(quantity := HandleIncrement(item).quantity))
      == Some(UpdateQuantity(item.product.id, item.quantity))
  {
  }
}

/** The cart slice of the store: a list of ticket entries, appended to and cleared per raffle. */
module Cart {
  import opened Seqs

  /** One ticket in the cart; prices travel as the display strings the raffle page built. */
  datatype CartItem = CartItem(
    number: string,
    baseValue: string,
    tax: string,
    totalValue: string,
    raffleId: int,
    raffleName: string)

  /** `items.filter(item => item.raffleId !== raffleId)`. */
  function WithoutRaffle(items: seq<CartItem>, raffleId: int): seq<CartItem> {
    Filter(items, (item: CartItem) => item.raffleId != raffleId)
  }

  /** The slice state; the reducers change `items` in place. */
  class CartState {
    var items: seq<CartItem>

    /** The initial state: an empty cart. */
    constructor ()
      ensures items == []
    {
      items := [];
    }

    /** `addToCart`: pushes the payload as the new last item. */
    method AddToCart(item: CartItem)
      modifies this
      ensures items == old(items) + [item]
      ensures |items| == |old(items)| + 1 && items[|items| - 1] == item
      ensures forall i :: 0 <= i < |old(items)| ==> items[i] == old(items)[i]
    {
      items := items + [item];
    }

    /** `clearRaffleItems`: drops every item of one raffle. */
    method ClearRaffleItems(raffleId: int)
      modifies this
      ensures items == WithoutRaffle(old(items), raffleId)
      ensures |items| <= |old(items)|
      ensures forall item :: item in items ==> item.raffleId != raffleId
    {
      items := WithoutRaffle(items, raffleId);
      ClearedHasNoItemOfRaffle(old(items), raffleId);
    }
  }

  /** After clearing, no item of that raffle is left. */
  lemma ClearedHasNoItemOfRaffle(items: seq<CartItem>, raffleId: int)
    ensures forall item :: item in WithoutRaffle(items, raffleId) ==> item.raffleId != raffleId
  {
    FilterAllAccepted(items, (item: CartItem) => item.raffleId != raffleId);
  }

  /**
   * Clearing keeps every item of another raffle, as many times as it occurred,
   * and an item is in the result exactly when it was in the cart under another raffle.
   */
  lemma ClearKeepsOtherRaffles(items: seq<CartItem>, raffleId: int, item: CartItem)
    ensures item in WithoutRaffle(items, raffleId) <==> item in items && item.raffleId != raffleId
    ensures item.raffleId != raffleId ==>
      multiset(WithoutRaffle(items, raffleId))[item] == multiset(items)[item]
  {
    FilterMembership(items, (item: CartItem) => item.raffleId != raffleId, item);
    FilterCount(items, (item: CartItem) => item.raffleId != raffleId, item);
  }

  /** Clearing works part by part, so the kept items stay in their relative order. */
  lemma ClearKeepsOrder(front: seq<CartItem>, back: seq<CartItem>, raffleId: int)
    ensures WithoutRaffle(front + back, raffleId) == WithoutRaffle(front, raffleId) + WithoutRaffle(back, raffleId)
  {
    FilterAppend(front, back, (item: CartItem) => item.raffleId != raffleId);
  }

  /** A cart without items of the raffle is left exactly as it was, and only such a cart. */
  lemma ClearUnchangedIff(items: seq<CartItem>, raffleId: int)
    ensures WithoutRaffle(items, raffleId) == items <==>
      forall i :: 0 <= i < |items| ==> items[i].raffleId != raffleId
  {
    FilterUnchanged(items, (item: CartItem) => item.raffleId != raffleId);
  }

  /** Clearing the same raffle twice is clearing it once. */
  lemma ClearIdempotent(items: seq<CartItem>, raffleId: int)
    ensures WithoutRaffle(WithoutRaffle(items, raffleId), raffleId) == WithoutRaffle(items, raffleId)
  {
    FilterIdempotent(items, (item: CartItem) => item.raffleId != raffleId);
  }

  /** Adding an item and then clearing its raffle is the same as only clearing it. */
  lemma ClearUndoesAdd(items: seq<CartItem>, item: CartItem)
    ensures WithoutRaffle(items + [item], item.raffleId) == WithoutRaffle(items, item.raffleId)
  {
    ClearKeepsOrder(items, [item], item.raffleId);
  }
}

/** A player's hand of cards (src/board/hand.rs). */
module Hands {
  import opened Components

  /** `swap_remove`: the last element takes the place of the removed one. */
  function SwapRemove<T>(s: seq<T>, i: nat): (r: seq<T>)
    requires i < |s|
    ensures |r| == |s| - 1
  {
    if i == |s| - 1 then s[..i] else s[..i] + [s[|s| - 1]] + s[i + 1..|s| - 1]
  }

  /** What `swap_remove` keeps: every other element once, the old last one at i,
      all other positions in place. */
  lemma {:induction false} SwapRemoveFacts<T>(s: seq<T>, i: nat)
    requires i < |s|
    ensures multiset(SwapRemove(s, i)) + multiset{s[i]} == multiset(s)
    ensures i < |s| - 1 ==> SwapRemove(s, i)[i] == s[|s| - 1]
    ensures forall k :: 0 <= k < |s| - 1 && k != i ==> SwapRemove(s, i)[k] == s[k]
  {
    var last := |s| - 1;
    var front := s[..i];
    if i == last {
      assert s == front + [s[i]];
    } else {
      var middle := s[i + 1..last];
      assert s == front + [s[i]] + middle + [s[last]];
      assert SwapRemove(s, i) == front + [s[last]] + middle;
    }
  }

  class Hand {
    var hand: seq<Card>
    /** `CARDS_IN_HAND`, whose value is not part of this model. */
    const capacity: nat

    ghost predicate Valid()
      reads this
    {
      |hand| <= capacity
    }

    /** `new`: an empty hand. */
    constructor (cardsInHand: nat)
      requires cardsInHand > 0
      ensures Valid() && hand == [] && capacity == cardsInHand
    {
      hand := [];
      capacity := cardsInHand;
    }

    /** `remove`: takes out the card at `index` by `swap_remove`. */
    method Remove(index: nat) returns (card: Card)
      requires Valid() && index < |hand|
      modifies this
      ensures Valid()
      ensures card == old(hand)[index] && hand == SwapRemove(old(hand), index)
    {
      card := hand[index];
      hand := SwapRemove(hand, index);
    }

    /** `add`: appends a card; the hand must not be full (it panics). */
    method Add(card: Card)
      requires Valid() && |hand| < capacity
      modifies this
      ensures Valid() && hand == old(hand) + [card]
    {
      hand := hand + [card];
    }

    /** `len`: never more than the capacity. */
    function Len(): (n: nat)
      reads this
      requires Valid()
      ensures n == |hand| && n <= capacity
    {
      |hand|
    }

    /** `index`. */
    function At(i: nat): (c: Card)
      reads this
      requires i < |hand|
      ensures c in hand
    {
      hand[i]
    }
  }
}

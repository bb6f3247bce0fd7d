/** The draw pile (src/board/deck.rs): all 54 cards, shuffled, drawn from the end. */
module Decks {
  import opened Components

  /** `shuffle(&mut thread_rng())` as a Fisher-Yates pass from the back: step i
      swaps position i with position rolls[i], a draw from 0..=i. */
  ghost predicate ValidRolls(rolls: seq<nat>, n: nat)
  {
    |rolls| == n && forall i :: 0 <= i < n ==> rolls[i] <= i
  }

  lemma SwapKeepsMultiset(s: seq<Card>, i: nat, j: nat)
    requires i < |s| && j < |s|
    ensures multiset(s[i := s[j]][j := s[i]]) == multiset(s)
  {
  }

  class Deck {
    var deck: seq<Card>

    /** `new`: the 54 cards in (num, colour) order, then shuffled by `rolls`;
        the deck holds every card exactly once. */
    constructor (rolls: seq<nat>)
      requires ValidRolls(rolls, CardsInDeck)
      ensures |deck| == CardsInDeck
      ensures multiset(deck) == multiset(AllCards())
      ensures forall c :: multiset(deck)[c] == 1
    {
      var cards: seq<Card> := [];
      for num := 1 to NumOfNums + 1
        invariant cards == AllCards()[..(num - 1) * NumOfColors]
      {
        for color := 1 to NumOfColors + 1
          invariant cards == AllCards()[..(num - 1) * NumOfColors + color - 1]
        {
          assert AllCards()[(num - 1) * NumOfColors + color - 1] == Card(num, color);
          cards := cards + [BuildCard(num, color).value];
        }
      }
      assert cards == AllCards();
      var i := |cards|;
      while i > 1
        invariant 0 <= i <= CardsInDeck && |cards| == CardsInDeck
        invariant multiset(cards) == multiset(AllCards())
      {
        i := i - 1;
        SwapKeepsMultiset(cards, i, rolls[i]);
        cards := cards[i := cards[rolls[i]]][rolls[i] := cards[i]];
      }
      forall c ensures multiset(cards)[c] == 1 {
        AllCardsOnce(c);
      }
      deck := cards;
    }

    /** `len`. */
    function Len(): (n: nat)
      reads this
      ensures n == |deck|
    {
      |deck|
    }

    /** `draw`: pops the last card; `None` on an empty deck. */
    method Draw() returns (card: Option<Card>)
      modifies this
      ensures old(deck) == [] ==> card == None && deck == []
      ensures old(deck) != [] ==> card.Some? && old(deck) == deck + [card.value]
    {
      if deck == [] {
        card := None;
      } else {
        card := Some(deck[|deck| - 1]);
        deck := deck[..|deck| - 1];
      }
    }

    /** `index`. */
    function At(i: nat): (c: Card)
      reads this
      requires i < |deck|
      ensures c in deck
    {
      deck[i]
    }
  }

  /** A new deck yields exactly 54 cards, every card once, the last one of the
      shuffled deck first, and then `None`. */
  method DrawAll(rolls: seq<nat>) returns (shuffled: seq<Card>, drawn: seq<Card>, after: Option<Card>)
    requires ValidRolls(rolls, CardsInDeck)
    ensures |shuffled| == CardsInDeck && multiset(shuffled) == multiset(AllCards())
    ensures |drawn| == CardsInDeck
    ensures forall k :: 0 <= k < CardsInDeck ==> drawn[k] == shuffled[CardsInDeck - 1 - k]
    ensures forall c :: multiset(drawn)[c] == 1
    ensures after == None
  {
    var d := new Deck(rolls);
    shuffled := d.deck;
    drawn := [];
    for k := 0 to CardsInDeck
      invariant |d.deck| + k == CardsInDeck
      invariant d.deck == shuffled[..CardsInDeck - k]
      invariant |drawn| == k
      invariant forall j :: 0 <= j < k ==> drawn[j] == shuffled[CardsInDeck - 1 - j]
      invariant multiset(d.deck) + multiset(drawn) == multiset(AllCards())
    {
      var card := d.Draw();
      assert card.value == shuffled[CardsInDeck - 1 - k];
      drawn := drawn + [card.value];
    }
    after := d.Draw();
    forall c ensures multiset(drawn)[c] == 1 {
      AllCardsOnce(c);
    }
  }
}

/** The board aggregate: the cards each player committed to each stone, the
    present-card table, the advantage and claims ledgers, and the rules that
    read them (src/board/cards_on_board.rs). */
module Board {
  import opened Components
  import opened Stonecards
  import opened AdvantageLedger
  import opened ClaimsLedger
  import opened Rules

  /** `PresentCards`: a 9 x 6 table marking every card committed anywhere. */
  class PresentCards {
    const cards: array2<bool>
    /** The set of cards the table marks. */
    ghost var Present: set<Card>

    ghost predicate Valid()
      reads this, cards
    {
      && cards.Length0 == NumOfNums && cards.Length1 == NumOfColors
      && forall c: Card :: c in Present <==> cards[NumIndex(c), ColorIndex(c)]
    }

    /** `new`: no card present. */
    constructor ()
      ensures Valid() && fresh(cards) && Present == {}
    {
      cards := new bool[NumOfNums, NumOfColors]((i, j) => false);
      Present := {};
    }

    /** `add_card`: marks the card; marking it again changes nothing. */
    method AddCard(card: Card)
      requires Valid()
      modifies this, cards
      ensures Valid() && Present == old(Present) + {card}
    {
      cards[NumIndex(card), ColorIndex(card)] := true;
      Present := Present + {card};
      forall c: Card ensures c in Present <==> cards[NumIndex(c), ColorIndex(c)] {
        if c != card {
          assert NumIndex(c) != NumIndex(card) || ColorIndex(c) != ColorIndex(card);
        }
      }
    }

    /** `is_present`: true exactly for the cards added so far. */
    function IsPresent(card: Card): (r: bool)
      reads this, cards
      requires Valid()
      ensures r <==> card in Present
    {
      cards[NumIndex(card), ColorIndex(card)]
    }
  }

  /** The enumeration `(1..=9).cartesian_product(1..=6)` has passed card c
      when it stands at (num, color). */
  predicate Visited(c: Card, num: int, color: int)
  {
    c.num < num || (c.num == num && c.color < color)
  }

  /** Moving on from (num, color) adds exactly the card standing there. */
  lemma VisitedNext(num: int, color: int)
    ensures forall c: Card ::
              Visited(c, num, color + 1) ==> Visited(c, num, color) || c == Card(num, color)
  {
  }

  /** Completing the 2-card hand `other` with c does not beat the strength. */
  ghost predicate OkOne(other: seq<Card>, present: set<Card>, strength: int, c: Card)
    requires |other| == 2
  {
    c in present || Score(other + [c]) <= strength
  }

  /** Completing the 1-card hand `other` with c1, c2 does not beat the strength. */
  ghost predicate OkTwo(other: seq<Card>, present: set<Card>, strength: int, c1: Card, c2: Card)
  {
    |other| == 1 ==> (c1 in present || c2 in present || c1 == c2 || Score(other + [c1, c2]) <= strength)
  }

  /** The hand c1, c2, c3 does not beat the strength. */
  ghost predicate OkThree(present: set<Card>, strength: int, c1: Card, c2: Card, c3: Card)
  {
    c1 in present || c2 in present || c3 in present || c1 == c2 || c3 == c2 || c3 == c1
    || Score([c1, c2, c3]) <= strength
  }

  lemma AllOkOne(other: seq<Card>, present: set<Card>, strength: int)
    requires |other| == 2
    requires forall c :: OkOne(other, present, strength, c)
    ensures !SomeCompletionBeats(other, present, strength)
  {
    forall adds | IsCompletion(other, adds, present) ensures Score(other + adds) <= strength {
      assert OkOne(other, present, strength, adds[0]);
      assert adds == [adds[0]];
    }
  }

  lemma AllOkTwo(other: seq<Card>, present: set<Card>, strength: int)
    requires |other| == 1
    requires forall c1, c2 :: OkTwo(other, present, strength, c1, c2)
    ensures !SomeCompletionBeats(other, present, strength)
  {
    forall adds | IsCompletion(other, adds, present) ensures Score(other + adds) <= strength {
      assert OkTwo(other, present, strength, adds[0], adds[1]);
      assert adds == [adds[0], adds[1]];
    }
  }

  lemma AllOkThree(other: seq<Card>, present: set<Card>, strength: int)
    requires other == []
    requires forall c1, c2, c3 :: OkThree(present, strength, c1, c2, c3)
    ensures !SomeCompletionBeats(other, present, strength)
  {
    forall adds | IsCompletion(other, adds, present) ensures Score(other + adds) <= strength {
      assert OkThree(present, strength, adds[0], adds[1], adds[2]);
      assert other + adds == [adds[0], adds[1], adds[2]];
    }
  }

  /** One candidate of the `2 =>` arm: the completed hand either keeps the
      check passing or witnesses a completion that beats the strength. */
  lemma OneStep(other: seq<Card>, present: set<Card>, strength: int, c: Card, tmp: StoneCards, st: int)
    requires |other| == 2 && tmp.cards == other + [c] && tmp.IsFull() && st == tmp.Strength()
    requires c !in present
    ensures st <= strength ==> OkOne(other, present, strength, c)
    ensures st > strength ==> SomeCompletionBeats(other, present, strength)
  {
    if st > strength {
      assert IsCompletion(other, [c], present);
    }
  }

  /** One candidate pair of the `1 =>` arm. */
  lemma SecondStep(other: seq<Card>, present: set<Card>, strength: int, c1: Card, c2: Card,
                   tmp: StoneCards, st: int)
    requires |other| == 1 && tmp.cards == other + [c1] + [c2] && tmp.IsFull() && st == tmp.Strength()
    requires c1 !in present && c2 !in present && c1 != c2
    ensures st <= strength ==> OkTwo(other, present, strength, c1, c2)
    ensures st > strength ==> SomeCompletionBeats(other, present, strength)
  {
    assert tmp.cards == other + [c1, c2];
    if st > strength {
      assert IsCompletion(other, [c1, c2], present);
    }
  }

  /** One candidate triple of the `0 =>` arm. */
  lemma ThirdStep(present: set<Card>, strength: int, c1: Card, c2: Card, c3: Card, tmp: StoneCards, st: int)
    requires tmp.cards == [] + [c1] + [c2] + [c3] && tmp.IsFull() && st == tmp.Strength()
    requires c1 !in present && c2 !in present && c3 !in present && c1 != c2 && c2 != c3 && c1 != c3
    ensures st <= strength ==> OkThree(present, strength, c1, c2, c3)
    ensures st > strength ==> SomeCompletionBeats([], present, strength)
  {
    assert tmp.cards == [c1, c2, c3];
    if st > strength {
      assert IsCompletion([], [c1, c2, c3], present);
    }
  }

  /** What the scan of `terminal_state` knows after the first i stones: the
      unclaimed and per-player counts, and the current streak, which is the
      longest run of equal entries ending at stone i-1, capped at three for a
      player; no player's run of three has ended before stone i-1. */
  ghost predicate Scanned(e: seq<Option<Player>>, i: nat, streak: nat, owner: Option<Player>, count: seq<nat>)
    requires |e| == NumOfStones && i <= NumOfStones
  {
    && |count| == 3
    && count[0] == Count(e[..i], None)
    && count[1] == Count(e[..i], Some(Player(0)))
    && count[2] == Count(e[..i], Some(Player(1)))
    && (i == 0 ==> streak == 0 && owner == None)
    && (i > 0 ==> 1 <= streak <= i && owner == e[i - 1])
    && (i > 0 ==> forall k :: i - streak <= k < i ==> e[k] == owner)
    && (i > 0 && streak < i ==> e[i - streak - 1] != owner)
    && (owner.Some? ==> streak <= 3)
    && (forall k :: 2 <= k < i - 1 ==> !Triple(e, k))
  }

  /** One stone of the scan. */
  lemma ScanStep(e: seq<Option<Player>>, i: nat, streak: nat, owner: Option<Player>, count: seq<nat>,
                 streak': nat, owner': Option<Player>, count': seq<nat>)
    requires |e| == NumOfStones && i < NumOfStones && Scanned(e, i, streak, owner, count)
    requires !(streak == 3 && owner.Some?)
    requires if e[i] == owner then streak' == streak + 1 && owner' == owner else streak' == 1 && owner' == e[i]
    requires count' == match e[i] case Some(p) => count[p.p + 1 := count[p.p + 1] + 1]
                                  case None => count[0 := count[0] + 1]
    ensures Scanned(e, i + 1, streak', owner', count')
  {
    assert e[..i + 1] == e[..i] + [e[i]];
    CountSnoc(e[..i], e[i], None);
    CountSnoc(e[..i], e[i], Some(Player(0)));
    CountSnoc(e[..i], e[i], Some(Player(1)));
  }

  /** Two rows of nine hands. */
  ghost predicate Shape(cards: seq<seq<StoneCards>>)
  {
    && |cards| == NumOfPlayers
    && forall p :: 0 <= p < NumOfPlayers ==> |cards[p]| == NumOfStones
  }

  /** The board's invariant on plain values: every hand holds at most three
      cards, every committed card is marked present, and the advantage is set
      exactly where some hand is full, to a player whose hand is full. */
  ghost predicate BoardInvariant(cards: seq<seq<StoneCards>>, present: set<Card>, adv: seq<Option<Player>>)
  {
    && Shape(cards) && |adv| == NumOfStones
    && (forall p, s :: 0 <= p < NumOfPlayers && 0 <= s < NumOfStones ==> cards[p][s].Valid())
    && (forall p, s, i :: 0 <= p < NumOfPlayers && 0 <= s < NumOfStones && 0 <= i < |cards[p][s].cards|
          ==> cards[p][s].cards[i] in present)
    && (forall s :: 0 <= s < NumOfStones ==>
          (adv[s].None? <==> !cards[0][s].IsFull() && !cards[1][s].IsFull()))
    && (forall s :: 0 <= s < NumOfStones && adv[s].Some? ==> cards[adv[s].value.p][s].IsFull())
  }

  /** The hands after `player` puts `card` at `stone`. */
  function Placed(cards: seq<seq<StoneCards>>, player: Player, stone: Stone, card: Card): seq<seq<StoneCards>>
    requires Shape(cards)
  {
    cards[player.p := cards[player.p][stone.s := StoneCards(cards[player.p][stone.s].cards + [card])]]
  }

  /** The advantage after that move: the player gets it if the move filled the
      hand and nobody had it. */
  function AdvantageAfter(adv: seq<Option<Player>>, filled: bool, player: Player, stone: Stone): seq<Option<Player>>
    requires |adv| == NumOfStones
  {
    if filled && adv[stone.s].None? then adv[stone.s := Some(player)] else adv
  }

  /** Placing a card on a hand that is not full keeps the board invariant. */
  lemma {:induction false} PlaceKeepsInvariant(cards: seq<seq<StoneCards>>, present: set<Card>,
                                               adv: seq<Option<Player>>, player: Player, stone: Stone, card: Card)
    requires BoardInvariant(cards, present, adv) && !cards[player.p][stone.s].IsFull()
    ensures BoardInvariant(Placed(cards, player, stone, card), present + {card},
                           AdvantageAfter(adv, |cards[player.p][stone.s].cards| == 2, player, stone))
  {
    var cards' := Placed(cards, player, stone, card);
    var adv' := AdvantageAfter(adv, |cards[player.p][stone.s].cards| == 2, player, stone);
    assert forall p, s :: 0 <= p < NumOfPlayers && 0 <= s < NumOfStones && (p != player.p || s != stone.s) ==>
      cards'[p][s] == cards[p][s];
    assert cards'[player.p][stone.s].cards == cards[player.p][stone.s].cards + [card];
  }

  /** On a board, a player whose hand at a stone is full while the opponent's is
      not holds the advantage there; so the enumeration arms of
      `proto_is_legal_claim`, where the claimant wins ties against every
      completion, agree with the advantage rule of the direct comparison. */
  lemma ClaimantHoldsAdvantage(cards: seq<seq<StoneCards>>, present: set<Card>, adv: seq<Option<Player>>,
                               player: Player, stone: Stone)
    requires BoardInvariant(cards, present, adv)
    requires cards[player.p][stone.s].IsFull() && !cards[GetOther(player).p][stone.s].IsFull()
    ensures adv[stone.s] == Some(player)
  {
    assert player.p == 0 || player.p == 1;
    assert adv[stone.s].Some?;
    OtherIsOnlyOther(player, adv[stone.s].value);
  }

  /** `CardsOnBoard`. */
  class CardsOnBoard {
    const advantage: Advantage
    /** `cards[player][stone]`, the hand of each player at each stone. */
    var cards: seq<seq<StoneCards>>
    const present: PresentCards
    const claims: Claims
    ghost const Repr: set<object>

    ghost predicate Shaped()
      reads this
    {
      Shape(cards)
    }

    ghost predicate Valid()
      reads this, Repr
    {
      && Repr == {this, present, present.cards, advantage.advantage, claims.claims}
      && advantage.Valid() && claims.Valid() && present.Valid()
      && advantage.advantage != claims.claims
      && BoardInvariant(cards, present.Present, advantage.Entries())
    }

    /** The hand of a player at a stone. */
    function HandAt(player: Player, stone: Stone): StoneCards
      reads this
      requires Shaped()
    {
      cards[player.p][stone.s]
    }

    /** `new`: empty hands, nothing present, no advantage, nothing claimed. */
    constructor ()
      ensures Valid() && fresh(Repr)
      ensures forall p: Player, s: Stone :: HandAt(p, s) == NewStoneCards()
      ensures present.Present == {}
      ensures forall i :: 0 <= i < NumOfStones ==> advantage.Entries()[i] == None && claims.Entries()[i] == None
    {
      var rows: seq<seq<StoneCards>> := [];
      for p := 0 to NumOfPlayers
        invariant |rows| == p
        invariant forall q :: 0 <= q < p ==> rows[q] == seq(NumOfStones, _ => NewStoneCards())
      {
        var row: seq<StoneCards> := [];
        for s := 0 to NumOfStones
          invariant row == seq(s, _ => NewStoneCards())
        {
          row := row + [NewStoneCards()];
        }
        rows := rows + [row];
      }
      var adv := new Advantage();
      var pr := new PresentCards();
      var cl := new Claims();
      advantage := adv;
      cards := rows;
      present := pr;
      claims := cl;
      Repr := {this, pr, pr.cards, adv.advantage, cl.claims};
      assert !NewStoneCards().IsFull();
      assert forall q, st :: 0 <= q < NumOfPlayers && 0 <= st < NumOfStones ==> rows[q][st] == NewStoneCards();
      assert forall st :: 0 <= st < NumOfStones ==> adv.advantage[st] == adv.Entries()[st];
    }

    /** `place_card`: marks the card present, appends it to the player's hand at the
        stone (which must not be full: `push` panics), and gives the player the
        advantage there if that filled the hand and nobody had it yet. */
    method PlaceCard(player: Player, stone: Stone, card: Card)
      requires Valid() && !HandAt(player, stone).IsFull()
      modifies this, present, present.cards, advantage.advantage
      ensures Valid()
      ensures present.Present == old(present.Present) + {card}
      ensures cards == Placed(old(cards), player, stone, card)
      ensures advantage.Entries() ==
        AdvantageAfter(old(advantage.Entries()), |old(HandAt(player, stone)).cards| == 2, player, stone)
    {
      PlaceKeepsInvariant(cards, present.Present, advantage.Entries(), player, stone, card);
      present.AddCard(card);
      var hand := cards[player.p][stone.s].Push(card).value;
      cards := cards[player.p := cards[player.p][stone.s := hand]];
      if hand.IsFull() {
        if advantage.At(stone.s).None? {
          advantage.Set(player, stone);
        }
      }
    }

    /** The `2 =>` arm of `proto_is_legal_claim`: every non-present card. */
    method NoOneCardBeats(other: StoneCards, strength: int) returns (ok: bool)
      requires present.Valid() && |other.cards| == 2
      ensures ok == !SomeCompletionBeats(other.cards, present.Present, strength)
    {
      for num := 1 to NumOfNums + 1
        invariant forall c: Card :: c.num < num ==> OkOne(other.cards, present.Present, strength, c)
      {
        for color := 1 to NumOfColors + 1
          invariant forall c :: Visited(c, num, color) ==> OkOne(other.cards, present.Present, strength, c)
        {
          VisitedNext(num, color);
          var card := Card(num, color);
          if !present.IsPresent(card) {
            var tmp := other.Push(card).value;
            var st := tmp.Strength();
            OneStep(other.cards, present.Present, strength, card, tmp, st);
            if st > strength {
              return false;
            }
          }
        }
      }
      AllOkOne(other.cards, present.Present, strength);
      return true;
    }

    /** The `1 =>` arm: every pair of distinct non-present cards. */
    method NoTwoCardsBeat(other: StoneCards, strength: int) returns (ok: bool)
      requires present.Valid() && |other.cards| == 1
      ensures ok == !SomeCompletionBeats(other.cards, present.Present, strength)
    {
      for num := 1 to NumOfNums + 1
        invariant forall c1: Card, c2: Card :: c1.num < num ==> OkTwo(other.cards, present.Present, strength, c1, c2)
      {
        for color := 1 to NumOfColors + 1
          invariant forall c1, c2 :: Visited(c1, num, color) ==> OkTwo(other.cards, present.Present, strength, c1, c2)
        {
          VisitedNext(num, color);
          var card1 := Card(num, color);
          if !present.IsPresent(card1) {
            var second := NoSecondCardBeats(other, card1, strength);
            if !second {
              return false;
            }
          }
        }
      }
      AllOkTwo(other.cards, present.Present, strength);
      return true;
    }

    /** The inner loop of the `1 =>` arm: the second card, given the first. */
    method NoSecondCardBeats(other: StoneCards, card1: Card, strength: int) returns (ok: bool)
      requires present.Valid() && |other.cards| == 1 && card1 !in present.Present
      ensures ok ==> forall c2 :: OkTwo(other.cards, present.Present, strength, card1, c2)
      ensures !ok ==> SomeCompletionBeats(other.cards, present.Present, strength)
    {
      for num := 1 to NumOfNums + 1
        invariant forall c2: Card :: c2.num < num ==> OkTwo(other.cards, present.Present, strength, card1, c2)
      {
        for color := 1 to NumOfColors + 1
          invariant forall c2 :: Visited(c2, num, color) ==> OkTwo(other.cards, present.Present, strength, card1, c2)
        {
          VisitedNext(num, color);
          var card2 := Card(num, color);
          if !present.IsPresent(card2) && card2 != card1 {
            var tmp1 := other.Push(card1).value;
            var tmp := tmp1.Push(card2).value;
            var st := tmp.Strength();
            SecondStep(other.cards, present.Present, strength, card1, card2, tmp, st);
            if st > strength {
              return false;
            }
          }
        }
      }
      return true;
    }

    /** The `0 =>` arm: every triple of mutually distinct non-present cards. */
    method NoThreeCardsBeat(other: StoneCards, strength: int) returns (ok: bool)
      requires present.Valid() && other.cards == []
      ensures ok == !SomeCompletionBeats(other.cards, present.Present, strength)
    {
      for num := 1 to NumOfNums + 1
        invariant forall c1: Card, c2: Card, c3: Card :: c1.num < num ==> OkThree(present.Present, strength, c1, c2, c3)
      {
        for color := 1 to NumOfColors + 1
          invariant forall c1, c2, c3 :: Visited(c1, num, color) ==> OkThree(present.Present, strength, c1, c2, c3)
        {
          VisitedNext(num, color);
          var card1 := Card(num, color);
          if !present.IsPresent(card1) {
            var rest := NoLastTwoBeat(card1, strength);
            if !rest {
              return false;
            }
          }
        }
      }
      AllOkThree(other.cards, present.Present, strength);
      return true;
    }

    /** The middle loop of the `0 =>` arm: the second card, given the first. */
    method NoLastTwoBeat(card1: Card, strength: int) returns (ok: bool)
      requires present.Valid() && card1 !in present.Present
      ensures ok ==> forall c2, c3 :: OkThree(present.Present, strength, card1, c2, c3)
      ensures !ok ==> SomeCompletionBeats([], present.Present, strength)
    {
      for num := 1 to NumOfNums + 1
        invariant forall c2: Card, c3: Card :: c2.num < num ==> OkThree(present.Present, strength, card1, c2, c3)
      {
        for color := 1 to NumOfColors + 1
          invariant forall c2, c3 :: Visited(c2, num, color) ==> OkThree(present.Present, strength, card1, c2, c3)
        {
          VisitedNext(num, color);
          var card2 := Card(num, color);
          if !present.IsPresent(card2) && card2 != card1 {
            var third := NoThirdCardBeats(card1, card2, strength);
            if !third {
              return false;
            }
          }
        }
      }
      return true;
    }

    /** The innermost loop of the `0 =>` arm: the third card, given the first two
        (distinct and not present). */
    method NoThirdCardBeats(card1: Card, card2: Card, strength: int) returns (ok: bool)
      requires present.Valid() && card1 !in present.Present && card2 !in present.Present && card1 != card2
      ensures ok ==> forall c3 :: OkThree(present.Present, strength, card1, card2, c3)
      ensures !ok ==> SomeCompletionBeats([], present.Present, strength)
    {
      for num := 1 to NumOfNums + 1
        invariant forall c3: Card :: c3.num < num ==> OkThree(present.Present, strength, card1, card2, c3)
      {
        for color := 1 to NumOfColors + 1
          invariant forall c3 :: Visited(c3, num, color) ==> OkThree(present.Present, strength, card1, card2, c3)
        {
          VisitedNext(num, color);
          var card3 := Card(num, color);
          if !present.IsPresent(card3) && card3 != card2 && card3 != card1 {
            var tmp1 := NewStoneCards().Push(card1).value;
            var tmp2 := tmp1.Push(card2).value;
            var tmp := tmp2.Push(card3).value;
            var st := tmp.Strength();
            ThirdStep(present.Present, strength, card1, card2, card3, tmp, st);
            if st > strength {
              return false;
            }
          }
        }
      }
      return true;
    }

    /** `proto_is_legal_claim`: the direct comparison when the opponent's hand is
        full, the enumeration of its completions otherwise. */
    method ProtoIsLegalClaim(player: Player, stone: Stone) returns (legal: bool)
      requires Valid()
      ensures legal == LegalClaim(HandAt(player, stone), HandAt(GetOther(player), stone),
                                  advantage.Entries()[stone.s], player, present.Present)
    {
      var mine := cards[player.p][stone.s];
      if !mine.IsFull() {
        return false;
      }
      var other := cards[GetOther(player).p][stone.s];
      var strength := mine.Strength();
      match other.Len()
      case 3 =>
        var adv := advantage.At(stone.s);
        if adv.Some? && adv.value == player {
          legal := strength >= other.Strength();
        } else {
          legal := strength > other.Strength();
        }
      case 2 =>
        legal := NoOneCardBeats(other, strength);
      case 1 =>
        legal := NoTwoCardsBeat(other, strength);
      case 0 =>
        legal := NoThreeCardsBeat(other, strength);
    }

    /** `claim`: succeeds, recording the player, exactly when the stone is unclaimed
        and the claim is legal; otherwise nothing changes. */
    method Claim(player: Player, stone: Stone) returns (ok: bool)
      requires Valid()
      modifies claims.claims
      ensures Valid()
      ensures ok == (old(claims.Entries())[stone.s].None?
                     && LegalClaim(HandAt(player, stone), HandAt(GetOther(player), stone),
                                   advantage.Entries()[stone.s], player, present.Present))
      ensures claims.Entries() == if ok then old(claims.Entries())[stone.s := Some(player)]
                                  else old(claims.Entries())
    {
      if claims.WhoClaimed(stone).None? {
        var legal := ProtoIsLegalClaim(player, stone);
        if legal {
          claims.Claim(player, stone);
          return true;
        }
      }
      return false;
    }

    /** `terminal_state`: scans the claims in stone order, keeping the length and
        owner of the current streak and a count per owner (index 0 for unclaimed,
        then `get_player`). */
    method TerminalState() returns (winner: Option<Player>)
      requires claims.Valid()
      ensures winner == Winner(claims.Entries())
    {
      var e := claims.Entries();
      var count: seq<nat> := [0, 0, 0];
      var streak := 0;
      var streakOwner: Option<Player> := None;
      var i := 0;
      while i < NumOfStones
        invariant 0 <= i <= NumOfStones && Scanned(e, i, streak, streakOwner, count)
      {
        if streak == 3 && streakOwner.Some? {
          break;
        }
        ghost var streak0, owner0, count0 := streak, streakOwner, count;
        if e[i] == streakOwner {
          streak := streak + 1;
        } else {
          streak := 1;
          streakOwner := e[i];
        }
        if e[i].Some? {
          var slot := GetPlayer(e[i].value);
          count := count[slot := count[slot] + 1];
        } else {
          count := count[0 := count[0] + 1];
        }
        ScanStep(e, i, streak0, owner0, count0, streak, streakOwner, count);
        i := i + 1;
      }
      if streak == 3 && streakOwner.Some? {
        assert Triple(e, i - 1);
        RunWins(e, i - 1);
        return streakOwner;
      }
      assert e[..i] == e;
      NoRunMajority(e);
      if count[1] >= 5 {
        return Some(Player(0));
      }
      if count[2] >= 5 {
        return Some(Player(1));
      }
      return None;
    }

    /** Which hands are full, per stone, for one player. */
    function FullFlags(player: Player): (f: seq<bool>)
      reads this
      requires Shaped()
      ensures |f| == NumOfStones && forall s :: 0 <= s < NumOfStones ==> f[s] == cards[player.p][s].IsFull()
    {
      var row := cards[player.p];
      seq(NumOfStones, s requires 0 <= s < NumOfStones => row[s].IsFull())
    }

    /** `available_stones`: the unclaimed stones in ascending order. */
    function AvailableStones(): (r: seq<Stone>)
      reads this, Repr
      requires Valid()
      ensures forall st: Stone :: st in r <==> claims.Entries()[st.s].None?
      ensures forall i, j :: 0 <= i < j < |r| ==> r[i].s < r[j].s
    {
      AvailableFrom(claims.Entries(), seq(NumOfStones, _ => false), 0)
    }

    /** `available_stones_for`: the unclaimed stones where the player's hand is not
        full, in ascending order. */
    function AvailableStonesFor(player: Player): (r: seq<Stone>)
      reads this, Repr
      requires Valid()
      ensures forall st: Stone :: st in r <==> claims.Entries()[st.s].None? && !HandAt(player, st).IsFull()
      ensures forall i, j :: 0 <= i < j < |r| ==> r[i].s < r[j].s
    {
      AvailableFrom(claims.Entries(), FullFlags(player), 0)
    }

    /** `any_available_stones_for`. */
    function AnyAvailableStonesFor(player: Player): (b: bool)
      reads this, Repr
      requires Valid()
      ensures b <==> exists st: Stone :: claims.Entries()[st.s].None? && !HandAt(player, st).IsFull()
      ensures b <==> AvailableStonesFor(player) != []
    {
      var r := AvailableFrom(claims.Entries(), FullFlags(player), 0);
      assert r != [] ==> r[0] in r;
      r != []
    }
  }
}

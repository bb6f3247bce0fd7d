/** Reference definitions of the board's rules, stated on plain values:
    when a claim is legal, who has won, and which stones are still open.
    The board's methods are proved against these. */
module Rules {
  import opened Components
  import opened Stonecards

  // ---------------------------------------------------------------------
  // Claim legality

  /** `adds` completes the partial hand `other` to three cards using cards that
      are not present anywhere on the board and are mutually distinct. */
  ghost predicate IsCompletion(other: seq<Card>, adds: seq<Card>, present: set<Card>)
  {
    && |other| + |adds| == StoneCardsLimit
    && Distinct(adds)
    && forall i :: 0 <= i < |adds| ==> adds[i] !in present
  }

  /** Some completion of `other` scores strictly more than `strength`. */
  ghost predicate SomeCompletionBeats(other: seq<Card>, present: set<Card>, strength: int)
    requires |other| <= StoneCardsLimit
  {
    exists adds :: IsCompletion(other, adds, present) && Score(other + adds) > strength
  }

  /** The claim of `player` at a stone where it holds `mine` and the opponent
      holds `other` is legal: its hand is full and either the opponent's full
      hand does not beat it (the advantage holder wins ties), or no way of
      completing the opponent's hand scores strictly more. */
  ghost predicate LegalClaim(mine: StoneCards, other: StoneCards, adv: Option<Player>,
                             player: Player, present: set<Card>)
    requires other.Valid()
  {
    && mine.IsFull()
    && if other.IsFull() then
         if adv == Some(player) then mine.Strength() >= other.Strength()
         else mine.Strength() > other.Strength()
       else
         !SomeCompletionBeats(other.cards, present, mine.Strength())
  }

  /** Identical full hands: the claim is legal exactly for the advantage holder. */
  lemma IdenticalHands(mine: StoneCards, adv: Option<Player>, player: Player, present: set<Card>)
    requires mine.IsFull()
    ensures LegalClaim(mine, mine, adv, player, present) <==> adv == Some(player)
  {
  }

  /** Marking more cards present never turns a legal claim illegal. */
  lemma {:induction false} LegalMorePresent(mine: StoneCards, other: StoneCards, adv: Option<Player>,
                                            player: Player, p1: set<Card>, p2: set<Card>)
    requires other.Valid() && p1 <= p2
    requires LegalClaim(mine, other, adv, player, p1)
    ensures LegalClaim(mine, other, adv, player, p2)
  {
    if !other.IsFull() {
      forall adds | IsCompletion(other.cards, adds, p2)
        ensures Score(other.cards + adds) <= mine.Strength()
      {
        assert IsCompletion(other.cards, adds, p1);
      }
    }
  }

  /** Revealing one more previously unseen card of the opponent never turns a
      legal claim illegal, provided the claimant holds the advantage should that
      card complete the opponent's hand (it always does on a real board, having
      filled its own hand first). */
  lemma {:induction false} LegalOpponentCard(mine: StoneCards, other: StoneCards, c: Card,
                                             adv: Option<Player>, player: Player, present: set<Card>)
    requires other.Valid() && !other.IsFull() && c !in present
    requires |other.cards| == 2 ==> adv == Some(player)
    requires LegalClaim(mine, other, adv, player, present)
    ensures LegalClaim(mine, StoneCards(other.cards + [c]), adv, player, present + {c})
  {
    if |other.cards| == 2 {
      OpponentCardFills(mine, other, c, adv, player, present);
    } else {
      OpponentCardGrows(mine, other, c, adv, player, present);
    }
  }

  /** The revealed card completes the opponent's hand: that completion did not beat. */
  lemma OpponentCardFills(mine: StoneCards, other: StoneCards, c: Card,
                          adv: Option<Player>, player: Player, present: set<Card>)
    requires other.Valid() && |other.cards| == 2 && c !in present && adv == Some(player)
    requires LegalClaim(mine, other, adv, player, present)
    ensures LegalClaim(mine, StoneCards(other.cards + [c]), adv, player, present + {c})
  {
    assert IsCompletion(other.cards, [c], present);
  }

  /** The opponent's hand stays short: its completions are completions of the old one. */
  lemma OpponentCardGrows(mine: StoneCards, other: StoneCards, c: Card,
                          adv: Option<Player>, player: Player, present: set<Card>)
    requires other.Valid() && |other.cards| < 2 && c !in present
    requires LegalClaim(mine, other, adv, player, present)
    ensures LegalClaim(mine, StoneCards(other.cards + [c]), adv, player, present + {c})
  {
    var grown := other.cards + [c];
    forall adds | IsCompletion(grown, adds, present + {c})
      ensures Score(grown + adds) <= mine.Strength()
    {
      var longer := [c] + adds;
      assert forall i :: 0 <= i < |adds| ==> longer[i + 1] == adds[i];
      assert IsCompletion(other.cards, longer, present);
      assert other.cards + longer == grown + adds by {
        assert |other.cards + longer| == |grown + adds|;
        forall k | 0 <= k < |grown + adds| ensures (other.cards + longer)[k] == (grown + adds)[k] {
          if k > |other.cards| {
            assert (other.cards + longer)[k] == longer[k - |other.cards|] == adds[k - |grown|];
          }
        }
      }
    }
  }

  // ---------------------------------------------------------------------
  // Terminal state

  /** Stones j-2, j-1 and j are owned by one player. */
  predicate Triple(e: seq<Option<Player>>, j: nat)
    requires |e| == NumOfStones && 2 <= j < NumOfStones
  {
    e[j].Some? && e[j - 2] == e[j] && e[j - 1] == e[j]
  }

  /** The owner of the first such run ending at j or later. */
  function FirstRunFrom(e: seq<Option<Player>>, j: nat): Option<Player>
    requires |e| == NumOfStones && 2 <= j
    decreases NumOfStones - j
  {
    if j >= NumOfStones then None
    else if Triple(e, j) then e[j]
    else FirstRunFrom(e, j + 1)
  }

  /** How many entries of s equal x. */
  function Count(s: seq<Option<Player>>, x: Option<Player>): (n: nat)
    ensures n <= |s|
  {
    if s == [] then 0
    else Count(s[..|s| - 1], x) + (if s[|s| - 1] == x then 1 else 0)
  }

  lemma CountSnoc(s: seq<Option<Player>>, y: Option<Player>, x: Option<Player>)
    ensures Count(s + [y], x) == Count(s, x) + if y == x then 1 else 0
  {
    assert (s + [y])[..|s|] == s;
  }

  /** The winner: the owner of the first run of three neighbouring stones; failing
      that, a player with five stones or more; failing that, nobody yet. */
  function Winner(e: seq<Option<Player>>): Option<Player>
    requires |e| == NumOfStones
  {
    var run := FirstRunFrom(e, 2);
    if run.Some? then run
    else if Count(e, Some(Player(0))) >= 5 then Some(Player(0))
    else if Count(e, Some(Player(1))) >= 5 then Some(Player(1))
    else None
  }

  lemma {:induction false} FirstRunFromFacts(e: seq<Option<Player>>, j: nat)
    requires |e| == NumOfStones && 2 <= j
    ensures FirstRunFrom(e, j).Some? <==> exists k :: j <= k < NumOfStones && Triple(e, k)
    ensures FirstRunFrom(e, j).Some? ==>
      exists k :: j <= k < NumOfStones && Triple(e, k) && e[k] == FirstRunFrom(e, j)
                  && forall k' :: j <= k' < k ==> !Triple(e, k')
    decreases NumOfStones - j
  {
    if j < NumOfStones && !Triple(e, j) {
      FirstRunFromFacts(e, j + 1);
      if FirstRunFrom(e, j + 1).Some? {
        var k :| j + 1 <= k < NumOfStones && Triple(e, k) && e[k] == FirstRunFrom(e, j + 1)
                 && forall k' :: j + 1 <= k' < k ==> !Triple(e, k');
        assert forall k' :: j <= k' < k ==> !Triple(e, k');
      }
    }
  }

  /** When the first run of three ends at stone k, its owner wins. */
  lemma RunWins(e: seq<Option<Player>>, k: nat)
    requires |e| == NumOfStones && 2 <= k < NumOfStones && Triple(e, k)
    requires forall k' :: 2 <= k' < k ==> !Triple(e, k')
    ensures Winner(e) == e[k]
  {
    RunFromFirst(e, 2, k);
  }

  lemma {:induction false} RunFromFirst(e: seq<Option<Player>>, j: nat, k: nat)
    requires |e| == NumOfStones && 2 <= j <= k < NumOfStones && Triple(e, k)
    requires forall k' :: j <= k' < k ==> !Triple(e, k')
    ensures FirstRunFrom(e, j) == e[k]
    decreases k - j
  {
    if j < k {
      RunFromFirst(e, j + 1, k);
    }
  }

  /** Without any run of three, a player owning five stones or more wins; if
      neither does, there is no winner. */
  lemma NoRunMajority(e: seq<Option<Player>>)
    requires |e| == NumOfStones
    requires forall k :: 2 <= k < NumOfStones ==> !Triple(e, k)
    ensures Count(e, Some(Player(0))) >= 5 ==> Winner(e) == Some(Player(0))
    ensures Count(e, Some(Player(1))) >= 5 ==> Winner(e) == Some(Player(1))
    ensures Count(e, Some(Player(0))) < 5 && Count(e, Some(Player(1))) < 5 ==> Winner(e) == None
  {
    FirstRunFromFacts(e, 2);
    CountsAddUp(e);
  }

  /** Both players' and the unclaimed counts add up to the number of entries. */
  lemma {:induction false} CountsAddUp(s: seq<Option<Player>>)
    ensures Count(s, None) + Count(s, Some(Player(0))) + Count(s, Some(Player(1))) == |s|
  {
    if s != [] {
      CountsAddUp(s[..|s| - 1]);
      var last := s[|s| - 1];
      if last.Some? {
        assert last.value.p == 0 || last.value.p == 1;
      }
    }
  }

  /** A winner always owns a run of three or at least five stones. */
  lemma WinnerJustified(e: seq<Option<Player>>)
    requires |e| == NumOfStones
    ensures Winner(e).Some? ==>
      (exists k :: 2 <= k < NumOfStones && Triple(e, k) && e[k] == Winner(e))
      || Count(e, Winner(e)) >= 5
    ensures Winner(e).None? ==>
      (forall k :: 2 <= k < NumOfStones ==> !Triple(e, k))
      && Count(e, Some(Player(0))) < 5 && Count(e, Some(Player(1))) < 5
  {
    FirstRunFromFacts(e, 2);
  }

  // ---------------------------------------------------------------------
  // Available stones

  /** The stones from index k on that are unclaimed and where the hand is not full,
      in ascending order. */
  function AvailableFrom(claims: seq<Option<Player>>, full: seq<bool>, k: nat): (r: seq<Stone>)
    requires |claims| == NumOfStones && |full| == NumOfStones && k <= NumOfStones
    ensures forall i :: 0 <= i < |r| ==> k <= r[i].s
    ensures forall i, j :: 0 <= i < j < |r| ==> r[i].s < r[j].s
    ensures forall st: Stone :: st in r <==> k <= st.s && claims[st.s].None? && !full[st.s]
    decreases NumOfStones - k
  {
    if k == NumOfStones then []
    else
      var rest := AvailableFrom(claims, full, k + 1);
      if claims[k].None? && !full[k] then [Stone(k)] + rest else rest
  }
}

/** The cards one player has committed to one stone, and their strength. */
module Stonecards {
  import opened Components

  const StoneCardsLimit: int := 3

  /** The five scoring categories, weakest first. */
  datatype Category = Sum | Run | Colour | ThreeOfAKind | ColourRun

  function Rank(k: Category): nat
  {
    match k
    case Sum => 0
    case Run => 1
    case Colour => 2
    case ThreeOfAKind => 3
    case ColourRun => 4
  }

  /** A position hand: the cards in the order they were pushed. The Rust
      struct is `Clone + Eq + Hash` and is used as a map key, so it is a value. */
  datatype StoneCards = StoneCards(cards: seq<Card>)
  {
    /** The invariant `push` keeps: at most three cards. */
    predicate Valid()
    {
      |cards| <= StoneCardsLimit
    }

    /** `len`: the number of cards pushed, never above three on a valid hand. */
    function Len(): (n: nat)
      ensures n == |cards|
      ensures Valid() ==> n <= StoneCardsLimit
    {
      |cards|
    }

    /** `is_full`: a valid hand that is not full still has room for a card. */
    function IsFull(): (b: bool)
      ensures b ==> Len() == StoneCardsLimit
      ensures Valid() && !b ==> Len() < StoneCardsLimit
    {
      |cards| == StoneCardsLimit
    }

    /** `Index`: the card pushed as the i-th one. */
    function At(i: nat): (c: Card)
      requires i < |cards|
      ensures c in cards
    {
      cards[i]
    }

    /** `push`: fails on a full hand, otherwise appends at the end. */
    function Push(c: Card): (r: Option<StoneCards>)
      ensures r.None? <==> IsFull()
      ensures r.Some? ==> r.value.cards == cards + [c] && r.value.Len() == Len() + 1
      ensures r.Some? && Valid() ==> r.value.Valid()
    {
      if IsFull() then None else Some(StoneCards(cards + [c]))
    }

    /** `strength`: only defined for a full hand. */
    function Strength(): (r: int)
      requires IsFull()
      ensures 4 <= r <= 72
    {
      Score(cards)
    }
  }

  /** `StoneCards::new`. */
  function NewStoneCards(): (h: StoneCards)
    ensures h.Valid() && h.Len() == 0 && !h.IsFull()
  {
    StoneCards([])
  }

  function Min3(a: int, b: int, d: int): int
  {
    if a <= b && a <= d then a else if b <= d then b else d
  }

  function Max3(a: int, b: int, d: int): int
  {
    if a >= b && a >= d then a else if b >= d then b else d
  }

  /** The numbers of three cards in ascending order, as `sort_unstable_by_key(num)`
      leaves them: the lowest, the middle and the highest one. */
  function SortedNums(c: seq<Card>): (r: seq<int>)
    requires |c| == 3
    ensures |r| == 3 && r[0] <= r[1] <= r[2]
    ensures r[0] == Lowest(c) && r[2] == Highest(c) && r[0] + r[1] + r[2] == NumSum(c)
  {
    var a, b, d := c[0].num, c[1].num, c[2].num;
    if a <= b then
      if b <= d then [a, b, d] else if a <= d then [a, d, b] else [d, a, b]
    else
      if a <= d then [b, a, d] else if b <= d then [b, d, a] else [d, b, a]
  }

  predicate SameNum(c: seq<Card>)
    requires |c| == 3
  {
    c[0].num == c[1].num && c[1].num == c[2].num
  }

  predicate SameColour(c: seq<Card>)
    requires |c| == 3
  {
    c[0].color == c[1].color && c[1].color == c[2].color
  }

  predicate IsRunSorted(s: seq<int>)
    requires |s| == 3
  {
    s[0] + 1 == s[1] && s[1] + 1 == s[2]
  }

  /** The score of three cards, branch by branch as `strength` computes it. */
  function Score(c: seq<Card>): (r: int)
    requires |c| == 3
    ensures 4 <= r <= 72
  {
    if SameNum(c) then 56 + c[0].num
    else
      var s := SortedNums(c);
      var isRun := IsRunSorted(s);
      var isColour := SameColour(c);
      if isRun && isColour then 65 + s[0]
      else if isRun then 26 + s[0]
      else if isColour then s[0] + s[1] + s[2] + 33
      else s[0] + s[1] + s[2]
  }

  /** The category whose branch `strength` takes. */
  function CategoryOf(c: seq<Card>): Category
    requires |c| == 3
  {
    if SameNum(c) then ThreeOfAKind
    else if IsRunSorted(SortedNums(c)) && SameColour(c) then ColourRun
    else if IsRunSorted(SortedNums(c)) then Run
    else if SameColour(c) then Colour
    else Sum
  }

  // ---------------------------------------------------------------------
  // A description of the score that does not sort: it only uses the lowest
  // and highest number and the sum, all symmetric in the three cards.

  function NumSum(c: seq<Card>): int
    requires |c| == 3
  {
    c[0].num + c[1].num + c[2].num
  }

  function Lowest(c: seq<Card>): int
    requires |c| == 3
  {
    Min3(c[0].num, c[1].num, c[2].num)
  }

  function Highest(c: seq<Card>): int
    requires |c| == 3
  {
    Max3(c[0].num, c[1].num, c[2].num)
  }

  /** The numbers are m, m+1 and m+2 for their lowest number m. */
  predicate IsRun(c: seq<Card>)
    requires |c| == 3
  {
    Highest(c) == Lowest(c) + 2 && NumSum(c) == 3 * Lowest(c) + 3
  }

  /** The score by the table above `strength`, without sorting. */
  function ReferenceScore(c: seq<Card>): int
    requires |c| == 3
  {
    if SameNum(c) then 56 + c[0].num
    else if IsRun(c) && SameColour(c) then 65 + Lowest(c)
    else if IsRun(c) then 26 + Lowest(c)
    else if SameColour(c) then 33 + NumSum(c)
    else NumSum(c)
  }

  function ReferenceCategory(c: seq<Card>): Category
    requires |c| == 3
  {
    if SameNum(c) then ThreeOfAKind
    else if IsRun(c) && SameColour(c) then ColourRun
    else if IsRun(c) then Run
    else if SameColour(c) then Colour
    else Sum
  }

  /** `strength` agrees with the table: three of a kind 56 + num, colour run
      65 + lowest, run 26 + lowest, colour 33 + sum, otherwise the sum. */
  lemma {:induction false} ScoreIsReference(c: seq<Card>)
    requires |c| == 3
    ensures Score(c) == ReferenceScore(c) && CategoryOf(c) == ReferenceCategory(c)
  {
    var s := SortedNums(c);
    assert IsRunSorted(s) <==> IsRun(c);
  }

  /** A two-element sequence with the same multiset as x is x or x swapped. */
  lemma Permutation2<T>(x: seq<T>, y: seq<T>)
    requires |x| == 2 && multiset(x) == multiset(y)
    ensures y == x || y == [x[1], x[0]]
  {
    assert |y| == |multiset(y)| == 2;
    assert x == [x[0], x[1]] && y == [y[0], y[1]];
    assert multiset(y) == multiset{y[0], y[1]};
    assert y[0] in multiset(x) && y[1] in multiset(x);
    if y[0] == x[0] {
      assert multiset(y) - multiset{x[0]} == multiset{y[1]};
      assert multiset(x) - multiset{x[0]} == multiset{x[1]};
    } else {
      assert y[0] == x[1];
      assert multiset(y) - multiset{x[1]} == multiset{y[1]};
      assert multiset(x) - multiset{x[1]} == multiset{x[0]};
    }
  }

  lemma TailMultiset<T>(y: seq<T>)
    requires |y| > 0
    ensures multiset(y[1..]) == multiset(y) - multiset{y[0]}
  {
    assert y == [y[0]] + y[1..];
  }

  lemma Multiset3<T>(x: seq<T>)
    requires |x| == 3
    ensures multiset(x) == multiset{x[0], x[1], x[2]}
  {
    assert x == [x[0]] + [x[1]] + [x[2]];
  }

  lemma PermutationWithHead<T>(a: T, b: T, d: T, y: seq<T>)
    requires |y| == 3 && y[0] == a && multiset(y[1..]) == multiset([b, d])
    ensures y == [a, b, d] || y == [a, d, b]
  {
    var t := y[1..];
    assert y == [y[0], t[0], t[1]];
    Permutation2([b, d], t);
  }

  lemma HeadOfPermutation<T>(x: seq<T>, y: seq<T>)
    requires |x| == 3 && multiset(x) == multiset(y)
    ensures |y| == 3
    ensures y[0] == x[0] || y[0] == x[1] || y[0] == x[2]
  {
    assert |y| == |multiset(y)| == 3;
    Multiset3(x);
    assert y[0] in multiset(y);
  }

  lemma RestOfPermutation<T>(a: T, b: T, d: T, y: seq<T>)
    requires |y| == 3 && multiset(y) == multiset{a, b, d} && y[0] == a
    ensures multiset(y[1..]) == multiset([b, d])
  {
    TailMultiset(y);
    assert multiset{a, b, d} - multiset{a} == multiset{b, d};
  }

  /** A three-element sequence with the same multiset as x is one of x's six orderings. */
  lemma Permutation3<T>(x: seq<T>, y: seq<T>)
    requires |x| == 3 && multiset(x) == multiset(y)
    ensures |y| == 3
    ensures || y == [x[0], x[1], x[2]] || y == [x[0], x[2], x[1]]
            || y == [x[1], x[0], x[2]] || y == [x[1], x[2], x[0]]
            || y == [x[2], x[0], x[1]] || y == [x[2], x[1], x[0]]
  {
    HeadOfPermutation(x, y);
    Multiset3(x);
    if y[0] == x[0] {
      RestOfPermutation(x[0], x[1], x[2], y);
      PermutationWithHead(x[0], x[1], x[2], y);
    } else if y[0] == x[1] {
      assert multiset{x[0], x[1], x[2]} == multiset{x[1], x[0], x[2]};
      RestOfPermutation(x[1], x[0], x[2], y);
      PermutationWithHead(x[1], x[0], x[2], y);
    } else {
      assert multiset{x[0], x[1], x[2]} == multiset{x[2], x[0], x[1]};
      RestOfPermutation(x[2], x[0], x[1], y);
      PermutationWithHead(x[2], x[0], x[1], y);
    }
  }

  /** The lowest and the highest of three numbers do not depend on their order. */
  lemma MinMaxSymmetric(a: int, b: int, d: int)
    ensures Min3(a, b, d) == Min3(a, d, b) == Min3(b, a, d) == Min3(b, d, a) == Min3(d, a, b) == Min3(d, b, a)
    ensures Max3(a, b, d) == Max3(a, d, b) == Max3(b, a, d) == Max3(b, d, a) == Max3(d, a, b) == Max3(d, b, a)
  {
  }

  /** Reordering three cards keeps every symmetric quantity the reference score uses. */
  lemma {:induction false} ReorderingKeepsReference(x: seq<Card>, y: seq<Card>)
    requires |x| == 3 && |y| == 3
    requires || y == [x[0], x[1], x[2]] || y == [x[0], x[2], x[1]]
             || y == [x[1], x[0], x[2]] || y == [x[1], x[2], x[0]]
             || y == [x[2], x[0], x[1]] || y == [x[2], x[1], x[0]]
    ensures ReferenceScore(x) == ReferenceScore(y) && ReferenceCategory(x) == ReferenceCategory(y)
  {
    MinMaxSymmetric(x[0].num, x[1].num, x[2].num);
    assert Lowest(x) == Lowest(y) && Highest(x) == Highest(y) && NumSum(x) == NumSum(y);
    assert SameNum(x) == SameNum(y) && SameColour(x) == SameColour(y);
    assert SameNum(x) ==> x[0].num == y[0].num;
  }

  /** Strength depends on the cards only, not on the order they were pushed in. */
  lemma {:induction false} StrengthPermutation(x: seq<Card>, y: seq<Card>)
    requires |x| == 3 && multiset(x) == multiset(y)
    ensures |y| == 3
    ensures Score(x) == Score(y) && CategoryOf(x) == CategoryOf(y)
  {
    Permutation3(x, y);
    ReorderingKeepsReference(x, y);
    ScoreIsReference(x);
    ScoreIsReference(y);
  }

  /** For three distinct cards every category has the band listed above `strength`. */
  lemma {:induction false} StrengthBands(c: seq<Card>)
    requires |c| == 3 && Distinct(c)
    ensures CategoryOf(c) == Sum ==> 4 <= Score(c) <= 26
    ensures CategoryOf(c) == Run ==> 27 <= Score(c) <= 33
    ensures CategoryOf(c) == Colour ==> 40 <= Score(c) <= 56
    ensures CategoryOf(c) == ThreeOfAKind ==> 57 <= Score(c) <= 65
    ensures CategoryOf(c) == ColourRun ==> 66 <= Score(c) <= 72
  {
    var s := SortedNums(c);
    if CategoryOf(c) == Colour {
      // Distinct cards of one colour have distinct numbers.
      assert c[0].num != c[1].num && c[1].num != c[2].num && c[0].num != c[2].num by {
        assert c[0] != c[1] && c[1] != c[2] && c[0] != c[2];
      }
      assert s[0] < s[1] < s[2];
      assert !IsRunSorted(s);
    }
  }

  /** Hence, for distinct cards, a higher category always has the higher strength:
      colour run > three of a kind > colour > run > sum. */
  lemma {:induction false} CategoryOrder(x: seq<Card>, y: seq<Card>)
    requires |x| == 3 && |y| == 3 && Distinct(x) && Distinct(y)
    requires Rank(CategoryOf(x)) > Rank(CategoryOf(y))
    ensures Score(x) > Score(y)
  {
    StrengthBands(x);
    StrengthBands(y);
  }
}

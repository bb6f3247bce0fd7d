/** The value types of the game: cards, players and stones.
    Each Rust struct keeps its field private and is only made by `build`,
    which panics on an out-of-range argument; here the range is carried by
    a subset type and `build` returns `None` where the Rust code panics. */
module Components {

  datatype Option<T> = None | Some(value: T)

  const NumOfNums: int := 9
  const NumOfColors: int := 6
  const NumOfPlayers: int := 2
  const NumOfStones: int := 9
  const CardsInDeck: int := 54

  /** The Rust `u8` that every constructor takes. */
  type Byte = x: int | 0 <= x < 256

  type Num = n: int | 1 <= n <= 9 witness 1
  type Color = c: int | 1 <= c <= 6 witness 1
  type PlayerIndex = p: int | 0 <= p < 2
  type StoneIndex = s: int | 0 <= s < 9

  /** A card; equality is value equality on (num, color), as the derived `PartialEq`. */
  datatype Card = Card(num: Num, color: Color)

  /** `Card::build`: a card exactly when both fields are in range. */
  function BuildCard(num: Byte, color: Byte): (r: Option<Card>)
    ensures r.Some? <==> 1 <= num <= NumOfNums && 1 <= color <= NumOfColors
    ensures r.Some? ==> r.value.num == num && r.value.color == color
  {
    if num < 1 || num > NumOfNums || color < 1 || color > NumOfColors then None
    else Some(Card(num, color))
  }

  /** `num_index`: a row index of the 9 x 6 present-card table. */
  function NumIndex(c: Card): (i: nat)
    ensures i < NumOfNums && i + 1 == c.num
  {
    c.num - 1
  }

  /** `color_index`: a column index of the 9 x 6 present-card table. */
  function ColorIndex(c: Card): (i: nat)
    ensures i < NumOfColors && i + 1 == c.color
  {
    c.color - 1
  }

  /** Two builds give equal cards exactly when they were given equal arguments. */
  lemma BuildCardInjective(n1: Byte, c1: Byte, n2: Byte, c2: Byte)
    requires BuildCard(n1, c1).Some? && BuildCard(n2, c2).Some?
    ensures BuildCard(n1, c1) == BuildCard(n2, c2) <==> n1 == n2 && c1 == c2
  {
  }

  /** The card at position k of the enumeration `(1..=9).cartesian_product(1..=6)`,
      the order in which the board, the deck and the cache list all cards. */
  function CardAt(k: nat): (c: Card)
    requires k < CardsInDeck
    ensures CardIndex(c) == k
  {
    Card(k / NumOfColors + 1, k % NumOfColors + 1)
  }

  /** The position of a card in that enumeration. */
  function CardIndex(c: Card): (k: nat)
    ensures k < CardsInDeck
  {
    NumIndex(c) * NumOfColors + ColorIndex(c)
  }

  lemma {:induction false} CardAtIndex(c: Card)
    ensures CardAt(CardIndex(c)) == c
  {
    var k := CardIndex(c);
    assert k / NumOfColors == c.num - 1;
    assert k % NumOfColors == c.color - 1;
  }

  /** All 54 cards in enumeration order. */
  function AllCards(): (r: seq<Card>)
    ensures |r| == CardsInDeck
    ensures forall k :: 0 <= k < CardsInDeck ==> r[k] == CardAt(k)
  {
    seq(CardsInDeck, k requires 0 <= k < CardsInDeck => CardAt(k))
  }

  ghost predicate Distinct<T>(s: seq<T>)
  {
    forall i, j :: 0 <= i < j < |s| ==> s[i] != s[j]
  }

  lemma {:induction false} DistinctCount<T>(s: seq<T>, x: T)
    requires Distinct(s)
    ensures multiset(s)[x] == if x in s then 1 else 0
  {
    if s != [] {
      var t := s[1..];
      assert s == [s[0]] + t;
      assert Distinct(t);
      DistinctCount(t, x);
      if x == s[0] {
        assert x !in t;
      }
    }
  }

  /** Every card occurs in the enumeration exactly once. */
  lemma AllCardsOnce(c: Card)
    ensures multiset(AllCards())[c] == 1
  {
    var all := AllCards();
    forall i, j | 0 <= i < j < |all| ensures all[i] != all[j] {
      assert CardIndex(all[i]) == i && CardIndex(all[j]) == j;
    }
    CardAtIndex(c);
    assert all[CardIndex(c)] == c;
    DistinctCount(all, c);
  }

  /** A player, 0 or 1 as an index. */
  datatype Player = Player(p: PlayerIndex)

  /** `Player::build`. */
  function BuildPlayer(p: Byte): (r: Option<Player>)
    ensures r.Some? <==> p < NumOfPlayers
    ensures r.Some? ==> GetIndex(r.value) == p
  {
    if p >= NumOfPlayers then None else Some(Player(p))
  }

  /** `get_player`: the one-based number under which the player is shown. */
  function GetPlayer(pl: Player): (n: Byte)
    ensures 1 <= n <= NumOfPlayers && n == GetIndex(pl) + 1
  {
    pl.p + 1
  }

  /** `get_index`: the zero-based index. */
  function GetIndex(pl: Player): (i: nat)
    ensures i < NumOfPlayers
  {
    pl.p
  }

  /** `get_other`, written `1 - p` for two players. */
  function GetOther(pl: Player): (o: Player)
    ensures o != pl
    ensures GetIndex(o) + GetIndex(pl) == NumOfPlayers - 1
  {
    Player(1 - pl.p)
  }

  /** The opponent of the opponent is the player. */
  lemma OtherInvolutive(pl: Player)
    ensures GetOther(GetOther(pl)) == pl
  {
  }

  /** With two players every player is the given one or its opponent. */
  lemma OtherIsOnlyOther(pl: Player, q: Player)
    ensures q == pl || q == GetOther(pl)
  {
  }

  /** One of the nine stones. */
  datatype Stone = Stone(s: StoneIndex)

  /** `Stone::build`. */
  function BuildStone(s: Byte): (r: Option<Stone>)
    ensures r.Some? <==> s < NumOfStones
    ensures r.Some? ==> StoneIndexOf(r.value) == s
  {
    if s >= NumOfStones then None else Some(Stone(s))
  }

  /** `get_stone`: the one-based number of the stone. */
  function GetStone(st: Stone): (n: Byte)
    ensures 1 <= n <= NumOfStones && n == StoneIndexOf(st) + 1
  {
    st.s + 1
  }

  /** `get_index`: the zero-based index of the stone. */
  function StoneIndexOf(st: Stone): (i: nat)
    ensures i < NumOfStones
  {
    st.s
  }
}

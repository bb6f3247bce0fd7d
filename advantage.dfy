/** Per stone, the player who holds the tie-break advantage there. */
module AdvantageLedger {
  import opened Components

  /** `Advantage`: a fixed array of nine `Option<Player>`. */
  class Advantage {
    const advantage: array<Option<Player>>

    ghost predicate Valid()
    {
      advantage.Length == NumOfStones
    }

    /** The entries in stone order. */
    function Entries(): (e: seq<Option<Player>>)
      reads advantage
      requires Valid()
      ensures |e| == NumOfStones
      ensures forall i :: 0 <= i < NumOfStones ==> e[i] == advantage[i]
    {
      advantage[..]
    }

    /** `new`: no stone has an advantage yet. */
    constructor ()
      ensures Valid() && fresh(advantage)
      ensures forall i :: 0 <= i < NumOfStones ==> Entries()[i] == None
    {
      advantage := new Option<Player>[NumOfStones](_ => None);
    }

    /** `set`: overwrites the stone's entry, whatever it held; the first-fill
        rule is the caller's (CardsOnBoard.PlaceCard). */
    method Set(player: Player, stone: Stone)
      requires Valid()
      modifies advantage
      ensures Entries() == old(Entries())[stone.s := Some(player)]
    {
      advantage[stone.s] := Some(player);
    }

    /** `set_multi`: every listed stone gets the player, every other stone keeps its entry. */
    method SetMulti(player: Player, stones: seq<Stone>)
      requires Valid()
      modifies advantage
      ensures forall i :: 0 <= i < NumOfStones ==>
        Entries()[i] == if Stone(i) in stones then Some(player) else old(Entries())[i]
    {
      for k := 0 to |stones|
        invariant forall i :: 0 <= i < NumOfStones ==>
          advantage[i] == if Stone(i) in stones[..k] then Some(player) else old(advantage[i])
      {
        assert stones[..k + 1] == stones[..k] + [stones[k]];
        advantage[stones[k].s] := Some(player);
      }
      assert stones[..|stones|] == stones;
    }

    /** `Index`: the stored entry, as it is. */
    function At(idx: nat): (r: Option<Player>)
      reads advantage
      requires Valid() && idx < NumOfStones
      ensures r == Entries()[idx]
    {
      advantage[idx]
    }
  }
}

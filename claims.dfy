/** Per stone, the player who has claimed it. */
module ClaimsLedger {
  import opened Components

  /** `Claims`: a fixed array of nine `Option<Player>`. */
  class Claims {
    const claims: array<Option<Player>>

    ghost predicate Valid()
    {
      claims.Length == NumOfStones
    }

    /** `iter`: the entries in stone order 0..8. */
    function Entries(): (e: seq<Option<Player>>)
      reads claims
      requires Valid()
      ensures |e| == NumOfStones
      ensures forall i :: 0 <= i < NumOfStones ==> e[i] == claims[i]
    {
      claims[..]
    }

    /** `new`: every stone unclaimed. */
    constructor ()
      ensures Valid() && fresh(claims)
      ensures forall i :: 0 <= i < NumOfStones ==> Entries()[i] == None
    {
      claims := new Option<Player>[NumOfStones](_ => None);
    }

    /** `claim`: the stone's entry becomes the player; nothing else changes. */
    method Claim(player: Player, stone: Stone)
      requires Valid()
      modifies claims
      ensures Entries() == old(Entries())[stone.s := Some(player)]
    {
      claims[stone.s] := Some(player);
    }

    /** `claims`: exactly the listed stones become the player's. */
    method ClaimMany(player: Player, stones: seq<Stone>)
      requires Valid()
      modifies claims
      ensures forall i :: 0 <= i < NumOfStones ==>
        Entries()[i] == if Stone(i) in stones then Some(player) else old(Entries())[i]
    {
      for k := 0 to |stones|
        invariant forall i :: 0 <= i < NumOfStones ==>
          claims[i] == if Stone(i) in stones[..k] then Some(player) else old(claims[i])
      {
        assert stones[..k + 1] == stones[..k] + [stones[k]];
        claims[stones[k].s] := Some(player);
      }
      assert stones[..|stones|] == stones;
    }

    /** `who_claimed`. */
    function WhoClaimed(stone: Stone): (r: Option<Player>)
      reads claims
      requires Valid()
      ensures r == Entries()[stone.s]
    {
      claims[stone.s]
    }

    /** `unclaim` (test scaffolding in the source): the stone's entry becomes `None`. */
    method Unclaim(stone: Stone)
      requires Valid()
      modifies claims
      ensures Entries() == old(Entries())[stone.s := None]
    {
      claims[stone.s] := None;
    }
  }

  /** `claim` followed by `unclaim` on a stone that was unclaimed leaves the
      ledger's entries as they were. */
  method ClaimThenUnclaim(c: Claims, player: Player, stone: Stone)
    requires c.Valid() && c.Entries()[stone.s] == None
    modifies c.claims
    ensures c.Valid() && c.Entries() == old(c.Entries())
  {
    c.Claim(player, stone);
    c.Unclaim(stone);
  }
}

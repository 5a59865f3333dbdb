/** The board's tiles: the six tile kinds, the tile record and its ownership sentinel. */
module Tiles {
  import opened Wrappers

  /** The six kinds a tile can have, in the enumeration's declaration order. */
  datatype TileKind = Start | Property | Jail | Chance | SpecialProperty | GoToJail

  /** The owner id of a tile nobody owns. */
  const Unowned: int := -1

  /** One tile of the path. The display name is not modelled. */
  datatype Tile = Tile(kind: TileKind, cost: int, rent: int, owner: int)

  /** A tile as the board creates it: it starts out unowned. */
  function NewTile(kind: TileKind, cost: int, rent: int): (t: Tile)
    ensures t.kind == kind && t.cost == cost && t.rent == rent
    ensures t.owner == -1 && !IsOwned(t)
  {
    Tile(kind, cost, rent, Unowned)
  }

  predicate IsOwned(t: Tile) {
    t.owner != Unowned
  }

  /** Whether the player with id `playerId` owns the tile. */
  predicate IsOwnedBy(t: Tile, playerId: int) {
    t.owner == playerId
  }

  /** Player ids are never the sentinel, so owning a tile means it is owned. */
  lemma OwnedByImpliesOwned(t: Tile, playerId: int)
    requires playerId >= 0
    ensures IsOwnedBy(t, playerId) ==> IsOwned(t)
    ensures IsOwned(t) <==> t.owner != -1
  {
  }

  /** The integer each kind has in the enumeration. */
  function KindCode(k: TileKind): (c: int)
    ensures 0 <= c < 6
  {
    match k
    case Start => 0
    case Property => 1
    case Jail => 2
    case Chance => 3
    case SpecialProperty => 4
    case GoToJail => 5
  }

  /** The kind an enumeration integer stands for, if any. */
  function KindOf(c: int): (r: Option<TileKind>)
    ensures r.Some? <==> 0 <= c < 6
  {
    if c == 0 then Some(Start)
    else if c == 1 then Some(Property)
    else if c == 2 then Some(Jail)
    else if c == 3 then Some(Chance)
    else if c == 4 then Some(SpecialProperty)
    else if c == 5 then Some(GoToJail)
    else None
  }

  /** Exactly six kinds exist: every kind has its own code and every code in 0..5 is a kind. */
  lemma ExactlySixKinds(k: TileKind, c: int)
    ensures KindOf(KindCode(k)) == Some(k)
    ensures 0 <= c < 6 ==> KindOf(c).Some? && KindCode(KindOf(c).value) == c
  {
  }
}

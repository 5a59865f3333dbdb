/** The two queries over the roster of players: who stands on a tile, and who has an id. */
module Roster {
  import opened Wrappers
  import opened Players

  /** The roster indices of the players standing on `tileIndex`, in roster order. */
  function PlayersOnTile(players: seq<Player>, tileIndex: int): (r: seq<nat>)
    ensures forall k :: 0 <= k < |r| ==> r[k] < |players| && players[r[k]].stepsMoved == tileIndex
    ensures forall k, m :: 0 <= k < m < |r| ==> r[k] < r[m]
    ensures forall j :: 0 <= j < |players| && players[j].stepsMoved == tileIndex ==> j in r
  {
    if |players| == 0 then []
    else
      var last := |players| - 1;
      PlayersOnTile(players[..last], tileIndex) + (if players[last].stepsMoved == tileIndex then [last] else [])
  }

  /** The roster index of the first player with id `id`, or None when no player has it. */
  function PlayerById(players: seq<Player>, id: int): (r: Option<nat>)
    ensures r.Some? ==> r.value < |players| && players[r.value].id == id
    ensures r.Some? ==> forall j :: 0 <= j < r.value ==> players[j].id != id
    ensures r.None? <==> forall j :: 0 <= j < |players| ==> players[j].id != id
  {
    if |players| == 0 then None
    else if players[0].id == id then Some(0)
    else match PlayerById(players[1..], id)
      case None => None
      case Some(j) => Some(j + 1)
  }

  /** The lookup depends only on the ids: rosters with the same ids answer alike. */
  lemma {:induction false} PlayerByIdSameIds(ps: seq<Player>, qs: seq<Player>, id: int)
    requires |ps| == |qs| && forall j :: 0 <= j < |ps| ==> ps[j].id == qs[j].id
    ensures PlayerById(ps, id) == PlayerById(qs, id)
  {
    if |ps| > 0 && ps[0].id != id {
      PlayerByIdSameIds(ps[1..], qs[1..], id);
    }
  }

  /** Example: two players on tile 7 are both reported, in roster order. */
  lemma TwoOnOneTile(a: Player, b: Player)
    requires a.stepsMoved == 7 && b.stepsMoved == 7
    ensures PlayersOnTile([a, b], 7) == [0, 1]
  {
    assert [a, b][..1] == [a];
    assert [a][..0] == [];
    assert PlayersOnTile([a], 7) == PlayersOnTile([], 7) + [0] == [0];
  }
}

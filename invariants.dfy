/** The game as a whole: the opening position, and the invariant every button press keeps. */
module Invariants {
  import opened Tiles
  import opened Players
  import opened Turns
  import opened Purchase
  import opened Effects
  import opened Round

  /** Every player has an id of their own. */
  predicate DistinctIds(players: seq<Player>) {
    forall i, j :: 0 <= i < j < |players| ==> players[i].id != players[j].id
  }

  /** Every listed holding is a tile of the board owned by the listing player, and every owned tile is
      listed by a player with the owner's id. */
  predicate HoldingsOk(s: State) {
    && (forall i, k :: 0 <= i < |s.players| && 0 <= k < |s.players[i].owned| ==>
          s.players[i].owned[k] < |s.path| && s.path[s.players[i].owned[k]].owner == s.players[i].id)
    && (forall t :: 0 <= t < |s.path| && s.path[t].owner != Unowned ==>
          exists i :: 0 <= i < |s.players| && s.players[i].id == s.path[t].owner && t in s.players[i].owned)
  }

  /** The invariant of the running game: the structure is sound, the turn rests with a free player, an
      open offer is for an unowned tile, ids are distinct and ownership is consistent both ways. */
  predicate Inv(s: State) {
    && Wf(s) && !s.players[s.current].inJail && OfferOk(s)
    && DistinctIds(s.players) && HoldingsOk(s)
  }

  /** All tiles start unowned. */
  predicate FreshBoard(path: seq<Tile>) {
    forall t :: 0 <= t < |path| ==> path[t].owner == Unowned
  }

  /** The scene as loaded: players with ids 0, 1, ... in roster order, each with the starting money on
      the first tile; the roll unlocked, no six, no offer, nothing announced. */
  function NewGame(path: seq<Tile>, jailIndex: int, n: nat): (s: State)
    requires n >= 1 && 0 <= jailIndex < |path| && path[jailIndex].kind == Jail
    ensures Wf(s) && |s.players| == n && s.current == 0 && s.canRoll && !s.panelOpen && s.turnLog == []
    ensures forall i :: 0 <= i < n ==> s.players[i] == NewPlayer(i)
  {
    State(seq(n, i => NewPlayer(i)), path, jailIndex, 0, true, false, NoOffer, false, [])
  }

  /** The game's start: the first player's turn is started and announced. */
  function Opening(path: seq<Tile>, jailIndex: int, n: nat): (s: State)
    requires n >= 1 && 0 <= jailIndex < |path| && path[jailIndex].kind == Jail
    ensures s.current == 0 && s.canRoll && s.turnLog == [0]
  {
    StartTurn(NewGame(path, jailIndex, n))
  }

  /** A fresh board with players numbered in order satisfies the invariant from the start. */
  lemma OpeningInv(path: seq<Tile>, jailIndex: int, n: nat)
    requires n >= 1 && 0 <= jailIndex < |path| && path[jailIndex].kind == Jail && FreshBoard(path)
    ensures Inv(Opening(path, jailIndex, n))
    ensures forall i :: 0 <= i < n ==> Opening(path, jailIndex, n).players[i] == NewPlayer(i)
  {
  }

  /** A tile effect keeps the invariant whenever the turn ends with a free player. */
  lemma SettledKeepsInv(s: State, r: State)
    requires Inv(s) && Settled(s, r) && !r.players[r.current].inJail
    ensures Inv(r)
  {
    forall t | 0 <= t < |r.path| && r.path[t].owner != Unowned
      ensures exists i :: 0 <= i < |r.players| && r.players[i].id == r.path[t].owner && t in r.players[i].owned
    {
      var i :| 0 <= i < |s.players| && s.players[i].id == s.path[t].owner && t in s.players[i].owned;
      assert r.players[i].id == s.players[i].id && r.players[i].owned == s.players[i].owned;
    }
  }

  /** A press of the roll button keeps the invariant. */
  lemma RollKeepsInv(s: State, face: int, draw: ChanceDraw)
    requires Inv(s) && 0 <= face < 6 && ValidDraw(draw)
    ensures Inv(RollDice(s, face, draw))
  {
    SettledKeepsInv(s, RollDice(s, face, draw));
  }

  /** Passing keeps the invariant: only jail state changes, and the panel closes. */
  lemma PassKeepsInv(s: State)
    requires Inv(s) && s.panelOpen
    ensures Inv(Pass(s))
  {
    var r := Pass(s);
    JailOnlyKeepsHoldings(s.players, r.players);
    assert Settled(s, r);
    SettledKeepsInv(s, r);
  }

  /** The purchase itself keeps ids distinct and ownership consistent, because the offered tile was
      unowned and therefore on nobody's list. */
  lemma PurchasedKeepsHoldings(s: State)
    requires Inv(s) && s.panelOpen
    ensures var r := Purchased(s);
      && Wf(r) && DistinctIds(r.players) && HoldingsOk(r) && !r.players[r.current].inJail
      && SameJail(s.players, r.players)
  {
    var t, b := s.offer.tile, s.offer.buyer;
    var r := Purchased(s);
    if CanAfford(s.players[b], s.path[t].cost) {
      assert forall i :: 0 <= i < |s.players| ==> r.players[i].id == s.players[i].id;
      assert forall i :: 0 <= i < |s.players| && i != b ==> r.players[i].owned == s.players[i].owned;
      assert r.players[b].owned == s.players[b].owned + [t];
      forall i, k | 0 <= i < |r.players| && 0 <= k < |r.players[i].owned|
        ensures r.players[i].owned[k] < |r.path| && r.path[r.players[i].owned[k]].owner == r.players[i].id
      {
        if k < |s.players[i].owned| {
          assert r.players[i].owned[k] == s.players[i].owned[k];
          assert s.players[i].owned[k] != t by { assert PlayerOk(s.players[i], |s.path|); }
        }
      }
      forall u | 0 <= u < |r.path| && r.path[u].owner != Unowned
        ensures exists i :: 0 <= i < |r.players| && r.players[i].id == r.path[u].owner && u in r.players[i].owned
      {
        if u == t {
          assert u in r.players[b].owned;
        } else {
          var i :| 0 <= i < |s.players| && s.players[i].id == s.path[u].owner && u in s.players[i].owned;
          assert u in r.players[i].owned;
        }
      }
    }
  }

  /** Buying keeps the invariant. */
  lemma BuyKeepsInv(s: State)
    requires Inv(s) && s.panelOpen
    ensures Inv(BuyProperty(s))
  {
    var p := Purchased(s);
    PurchasedKeepsHoldings(s);
    var r := Pass(p);
    JailOnlyKeepsHoldings(p.players, r.players);
    forall u | 0 <= u < |r.path| && r.path[u].owner != Unowned
      ensures exists i :: 0 <= i < |r.players| && r.players[i].id == r.path[u].owner && u in r.players[i].owned
    {
      var i :| 0 <= i < |p.players| && p.players[i].id == p.path[u].owner && u in p.players[i].owned;
      assert r.players[i].id == p.players[i].id && r.players[i].owned == p.players[i].owned;
    }
  }

  /** Ownership never changes hands: once owned, a tile keeps its owner through any press. */
  lemma OwnershipIsFinal(s: State, face: int, draw: ChanceDraw, t: nat)
    requires Inv(s) && 0 <= face < 6 && ValidDraw(draw) && t < |s.path| && s.path[t].owner != Unowned
    ensures RollDice(s, face, draw).path[t].owner == s.path[t].owner
    ensures s.panelOpen ==> Pass(s).path[t].owner == s.path[t].owner
    ensures s.panelOpen ==> BuyProperty(s).path[t].owner == s.path[t].owner
  {
    if s.panelOpen {
      var p := Purchased(s);
      assert p.path[t].owner == s.path[t].owner;
    }
  }
}

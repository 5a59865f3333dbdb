/** The purchase decision: the affordability gate that opens the buy panel, buying, and passing. */
module Purchase {
  import opened Tiles
  import opened Players
  import opened Turns

  /** Offering tile `t` to player `p`: a player who cannot pay the cost loses the rest of the turn and no
      offer is recorded; otherwise the offer is recorded, the panel opens and the turn goes on. */
  function ShowBuyPropertyUI(s: State, t: nat, p: nat): (r: State)
    requires Wf(s) && t < |s.path| && p < |s.players|
    ensures Wf(r) && JailOnlyChanged(s.players, r.players) && r.path == s.path && r.jailIndex == s.jailIndex
    ensures s.players[p].money < s.path[t].cost ==> r == EndTurn(s) && r.offer == s.offer
    ensures s.players[p].money >= s.path[t].cost ==>
      && r.offer == Offer(t, p) && r.panelOpen
      && r.players == s.players && r.current == s.current && r.canRoll == s.canRoll
      && r.rolledSix == s.rolledSix && r.turnLog == s.turnLog
  {
    if s.players[p].money < s.path[t].cost then EndTurn(s)
    else s.(offer := Offer(t, p), panelOpen := true)
  }

  /** The panel closes; a six rolled by a free current player gives that player the roll back,
      otherwise the turn passes on. */
  function Pass(s: State): (r: State)
    requires Wf(s)
    ensures Wf(r) && JailOnlyChanged(s.players, r.players) && r.path == s.path && r.jailIndex == s.jailIndex
    ensures !r.panelOpen && r.offer == s.offer && r.canRoll && !r.players[r.current].inJail
    ensures s.rolledSix && !s.players[s.current].inJail ==>
      r == s.(panelOpen := false, canRoll := true, rolledSix := false)
    ensures !(s.rolledSix && !s.players[s.current].inJail) ==>
      r == EndTurn(s.(panelOpen := false)) && r.turnLog == s.turnLog + [r.current]
  {
    ExtraRollOrEnd(s.(panelOpen := false))
  }

  /** The tiles, money and holdings after the buyer of the pending offer pays for it, when affordable. */
  function Purchased(s: State): (r: State)
    requires Wf(s) && s.panelOpen
    ensures Wf(r) && SameJail(s.players, r.players) && |r.path| == |s.path|
    ensures r.jailIndex == s.jailIndex && r.current == s.current && r.canRoll == s.canRoll
    ensures r.rolledSix == s.rolledSix && r.offer == s.offer && r.panelOpen == s.panelOpen && r.turnLog == s.turnLog
  {
    var t := s.offer.tile;
    var b := s.offer.buyer;
    var buyer := s.players[b];
    var tile := s.path[t];
    if CanAfford(buyer, tile.cost) then
      s.(players := s.players[b := AdjustMoney(buyer, -tile.cost).(owned := buyer.owned + [t])],
         path := s.path[t := tile.(owner := buyer.id)])
    else s
  }

  /** Buying the pending offer (when the buyer can still afford it), then finishing as Pass does. */
  function BuyProperty(s: State): (r: State)
    requires Wf(s) && s.panelOpen
    ensures Wf(r) && !r.panelOpen && r.jailIndex == s.jailIndex
  {
    Pass(Purchased(s))
  }

  /** An affordable purchase lowers the buyer's money by exactly the cost, makes the buyer the owner and
      appends the tile to the buyer's list; no other money, tile or list changes. */
  lemma BuyAffordable(s: State)
    requires Wf(s) && s.panelOpen
    requires CanAfford(s.players[s.offer.buyer], s.path[s.offer.tile].cost)
    ensures var r := BuyProperty(s); var t := s.offer.tile; var b := s.offer.buyer;
      && r.players[b].money == s.players[b].money - s.path[t].cost
      && r.path[t].owner == s.players[b].id
      && r.players[b].owned == s.players[b].owned + [t]
      && |r.path| == |s.path| && (forall u :: 0 <= u < |s.path| && u != t ==> r.path[u] == s.path[u])
      && r.path[t] == s.path[t].(owner := s.players[b].id)
      && |r.players| == |s.players|
      && (forall i :: 0 <= i < |s.players| && i != b ==> r.players[i].money == s.players[i].money && r.players[i].owned == s.players[i].owned)
  {
  }

  /** An unaffordable purchase changes no money, ownership or owned list: it is exactly a pass. */
  lemma BuyUnaffordable(s: State)
    requires Wf(s) && s.panelOpen
    requires !CanAfford(s.players[s.offer.buyer], s.path[s.offer.tile].cost)
    ensures BuyProperty(s) == Pass(s)
    ensures BuyProperty(s).path == s.path && SameHoldings(s.players, BuyProperty(s).players)
    ensures forall i :: 0 <= i < |s.players| ==> BuyProperty(s).players[i].money == s.players[i].money
  {
  }

  /** Example: buying a 220 tile with 300 leaves 80. */
  lemma BuyExample(s: State)
    requires Wf(s) && s.panelOpen && s.players[s.offer.buyer].money == 300 && s.path[s.offer.tile].cost == 220
    ensures BuyProperty(s).players[s.offer.buyer].money == 80
    ensures BuyProperty(s).path[s.offer.tile].owner == s.players[s.offer.buyer].id
  {
    BuyAffordable(s);
  }

  /** Ending a turn depends on nothing but the jail state, the current index and the log: money,
      positions and ownership do not influence who plays next. */
  lemma {:induction false} EndTurnIgnoresAssets(s: State, s': State)
    requires Wf(s) && Wf(s') && SameJail(s.players, s'.players)
    requires s'.current == s.current && s'.turnLog == s.turnLog && s'.rolledSix == s.rolledSix
    ensures SameJail(EndTurn(s).players, EndTurn(s').players)
    ensures EndTurn(s').current == EndTurn(s).current && EndTurn(s').turnLog == EndTurn(s).turnLog
    ensures EndTurn(s').canRoll == EndTurn(s).canRoll && EndTurn(s').rolledSix == EndTurn(s).rolledSix
    decreases JailSum(s.players), 2
  {
    var n := |s.players|;
    assert |s'.players| == n;
    var t := s.(current := NextIndex(s.current, n));
    var t' := s'.(current := NextIndex(s'.current, n));
    EndTurnUnfold(s);
    EndTurnUnfold(s');
    StartTurnIgnoresAssets(t, t');
  }

  lemma {:induction false} StartTurnIgnoresAssets(s: State, s': State)
    requires Wf(s) && Wf(s') && SameJail(s.players, s'.players)
    requires s'.current == s.current && s'.turnLog == s.turnLog && s'.rolledSix == s.rolledSix
    ensures SameJail(StartTurn(s).players, StartTurn(s').players)
    ensures StartTurn(s').current == StartTurn(s).current && StartTurn(s').turnLog == StartTurn(s).turnLog
    ensures StartTurn(s').canRoll == StartTurn(s).canRoll && StartTurn(s').rolledSix == StartTurn(s).rolledSix
    decreases JailSum(s.players), 1
  {
    if s.players[s.current].inJail {
      JailedTurnIgnoresAssets(s, s');
    } else {
      assert StartTurn(s) == s.(canRoll := true, turnLog := s.turnLog + [s.current]);
      assert StartTurn(s') == s'.(canRoll := true, turnLog := s'.turnLog + [s.current]);
    }
  }

  lemma {:induction false} JailedTurnIgnoresAssets(s: State, s': State)
    requires Wf(s) && Wf(s') && SameJail(s.players, s'.players) && s.players[s.current].inJail
    requires s'.current == s.current && s'.turnLog == s.turnLog && s'.rolledSix == s.rolledSix
    ensures SameJail(StartTurn(s).players, StartTurn(s').players)
    ensures StartTurn(s').current == StartTurn(s).current && StartTurn(s').turnLog == StartTurn(s).turnLog
    ensures StartTurn(s').canRoll == StartTurn(s).canRoll && StartTurn(s').rolledSix == StartTurn(s).rolledSix
    decreases JailSum(s.players), 0
  {
    SameJailAfterServing(s, s');
    var u, u' := ServeJailTurn(s), ServeJailTurn(s');
    EndTurnIgnoresAssets(u, u');
    StartTurnUnfold(s);
    StartTurnUnfold(s');
  }

  lemma SameJailAfterServing(s: State, s': State)
    requires Wf(s) && Wf(s') && SameJail(s.players, s'.players) && s'.current == s.current
    requires s.players[s.current].inJail
    ensures s'.players[s'.current].inJail
    ensures SameJail(ServeJailTurn(s).players, ServeJailTurn(s').players)
  {
  }

  /** Whether or not the purchase happens, the turn ends the same way: same next player, roll lock,
      six flag, announcements and jail state as a plain pass. */
  lemma BuySameTurnOutcome(s: State)
    requires Wf(s) && s.panelOpen
    ensures var r, q := BuyProperty(s), Pass(s);
      && r.current == q.current && r.canRoll == q.canRoll && r.rolledSix == q.rolledSix
      && r.turnLog == q.turnLog && SameJail(r.players, q.players)
  {
    var p := Purchased(s);
    var s1, p1 := s.(panelOpen := false), p.(panelOpen := false);
    if !(s.rolledSix && !s.players[s.current].inJail) {
      EndTurnIgnoresAssets(s1, p1);
    }
  }
}

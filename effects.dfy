/** What landing on a tile does: rent, the six tile kinds, and the relocation to jail. */
module Effects {
  import opened Wrappers
  import opened Tiles
  import opened Players
  import opened Roster
  import opened Turns
  import opened Purchase

  /** The state after a tile's effect, and the length of the walk to jail when one was started. */
  datatype Landing = Landing(state: State, jailWalk: Option<nat>)

  /** While the buy panel is open, its tile is still unowned. */
  predicate OfferOk(s: State) {
    s.panelOpen ==> s.offer.Offer? && s.offer.tile < |s.path| && s.path[s.offer.tile].owner == Unowned
  }

  /** What every tile effect keeps: the structure, the board, and every roster id and owned list;
      an open offer stays valid. */
  predicate Settled(s: State, r: State) {
    && Wf(r) && r.path == s.path && r.jailIndex == s.jailIndex
    && SameHoldings(s.players, r.players)
    && (OfferOk(s) ==> OfferOk(r))
  }

  lemma JailOnlyKeepsHoldings(before: seq<Player>, after: seq<Player>)
    requires JailOnlyChanged(before, after)
    ensures SameHoldings(before, after)
  {
    forall i | 0 <= i < |before|
      ensures after[i].id == before[i].id && after[i].owned == before[i].owned
    {
      assert after[i] == before[i].(inJail := after[i].inJail, jailTurns := after[i].jailTurns);
    }
  }

  /** Changing one player's money by `amount`; nothing else changes. */
  function Credit(s: State, p: nat, amount: int): (r: State)
    requires Wf(s) && p < |s.players|
    ensures Wf(r) && SameHoldings(s.players, r.players) && SameJail(s.players, r.players)
    ensures RosterOnly(s, r) && r.players[p].money == s.players[p].money + amount
    ensures forall i :: 0 <= i < |s.players| && i != p ==> r.players[i] == s.players[i]
  {
    s.(players := s.players[p := AdjustMoney(s.players[p], amount)])
  }

  /** The rent moves from the payer to the owner in one step, with no affordability check: the payer's
      balance may become negative, and the total money is unchanged. */
  function Transfer(s: State, p: nat, o: nat, rent: int): (r: State)
    requires Wf(s) && p < |s.players| && o < |s.players| && p != o
    ensures Wf(r) && SameHoldings(s.players, r.players) && SameJail(s.players, r.players)
    ensures RosterOnly(s, r)
    ensures r.players[p].money == s.players[p].money - rent && r.players[o].money == s.players[o].money + rent
    ensures forall i :: 0 <= i < |s.players| && i != p && i != o ==> r.players[i] == s.players[i]
  {
    Credit(Credit(s, p, -rent), o, rent)
  }

  /** Paying the rent of tile `t` to its owner, located by id. A jailed owner collects nothing and the
      turn simply ends; otherwise the rent is collected. When no player has the owner's id (or the payer is
      the owner) nothing is paid and the six rule decides on an extra roll. */
  function PayRent(s: State, p: nat, t: nat): (r: State)
    requires Wf(s) && p < |s.players| && t < |s.path|
    ensures Settled(s, r) && r.offer == s.offer && r.panelOpen == s.panelOpen
    ensures !r.players[r.current].inJail && r.canRoll
    ensures var owner := PlayerById(s.players, s.path[t].owner);
      if owner.Some? && s.path[t].owner != s.players[p].id && s.players[owner.value].inJail then
        r.turnLog == s.turnLog + [r.current]
      else if s.rolledSix && !s.players[s.current].inJail then
        r.current == s.current && r.turnLog == s.turnLog && !r.rolledSix
      else
        r.turnLog == s.turnLog + [r.current]
  {
    var tile := s.path[t];
    var owner := PlayerById(s.players, tile.owner);
    if owner.Some? && tile.owner != s.players[p].id then
      if s.players[owner.value].inJail then
        JailOnlyKeepsHoldings(s.players, EndTurn(s).players);
        EndTurn(s)
      else CollectRent(s, p, owner.value, tile.rent)
    else
      JailOnlyKeepsHoldings(s.players, ExtraRollOrEnd(s).players);
      ExtraRollOrEnd(s)
  }

  /** Who pays what: to a free owner found by id (other than the payer) the rent moves from payer to
      owner and no one else's money changes; to a jailed owner, or when no other owner is found,
      no money changes at all. */
  lemma PayRentMoney(s: State, p: nat, t: nat)
    requires Wf(s) && p < |s.players| && t < |s.path|
    ensures var r, owner := PayRent(s, p, t), PlayerById(s.players, s.path[t].owner);
      if owner.Some? && s.path[t].owner != s.players[p].id && !s.players[owner.value].inJail then
        && owner.value != p
        && r.players[p].money == s.players[p].money - s.path[t].rent
        && r.players[owner.value].money == s.players[owner.value].money + s.path[t].rent
        && forall i :: 0 <= i < |s.players| && i != p && i != owner.value ==> r.players[i].money == s.players[i].money
      else
        forall i :: 0 <= i < |s.players| ==> r.players[i].money == s.players[i].money
  {
    var r, owner := PayRent(s, p, t), PlayerById(s.players, s.path[t].owner);
    if owner.Some? && s.path[t].owner != s.players[p].id && !s.players[owner.value].inJail {
      var s1 := Transfer(s, p, owner.value, s.path[t].rent);
      MoneyKept(s1, ExtraRollOrEnd(s1));
    } else if owner.Some? && s.path[t].owner != s.players[p].id {
      MoneyKept(s, EndTurn(s));
    } else {
      MoneyKept(s, ExtraRollOrEnd(s));
    }
  }

  /** The three ways a rent demand can go: a jailed owner waives it and the turn ends whatever was
      rolled; a free owner other than the payer collects it; with no such owner nothing is paid. In the
      last two cases the six rule decides on an extra roll. */
  lemma PayRentBranches(s: State, p: nat, t: nat)
    requires Wf(s) && p < |s.players| && t < |s.path|
    ensures var owner, r := PlayerById(s.players, s.path[t].owner), PayRent(s, p, t);
      && (owner.Some? && s.path[t].owner != s.players[p].id && s.players[owner.value].inJail ==>
            r == EndTurn(s))
      && (owner.Some? && s.path[t].owner != s.players[p].id && !s.players[owner.value].inJail ==>
            owner.value != p && r == ExtraRollOrEnd(Transfer(s, p, owner.value, s.path[t].rent)))
      && (!(owner.Some? && s.path[t].owner != s.players[p].id) ==> r == ExtraRollOrEnd(s))
  {
  }

  /** Ending or continuing a turn moves no money. */
  lemma MoneyKept(s: State, r: State)
    requires JailOnlyChanged(s.players, r.players)
    ensures forall i :: 0 <= i < |s.players| ==> r.players[i].money == s.players[i].money
  {
    forall i | 0 <= i < |s.players|
      ensures r.players[i].money == s.players[i].money
    {
      assert r.players[i] == s.players[i].(inJail := r.players[i].inJail, jailTurns := r.players[i].jailTurns);
    }
  }

  /** The rent moves from payer `p` to owner `o`, then the six rule decides on an extra roll. */
  function CollectRent(s: State, p: nat, o: nat, rent: int): (r: State)
    requires Wf(s) && p < |s.players| && o < |s.players| && p != o
    ensures Settled(s, r) && r.offer == s.offer && r.panelOpen == s.panelOpen
    ensures !r.players[r.current].inJail && r.canRoll
    ensures r.players[p].money == s.players[p].money - rent && r.players[o].money == s.players[o].money + rent
    ensures forall i :: 0 <= i < |s.players| && i != p && i != o ==> r.players[i].money == s.players[i].money
    ensures s.rolledSix && !s.players[s.current].inJail ==>
      r.current == s.current && r.turnLog == s.turnLog && !r.rolledSix
    ensures !(s.rolledSix && !s.players[s.current].inJail) ==> r.turnLog == s.turnLog + [r.current]
  {
    var s1 := Transfer(s, p, o, rent);
    JailOnlyKeepsHoldings(s1.players, ExtraRollOrEnd(s1).players);
    MoneyKept(s1, ExtraRollOrEnd(s1));
    ExtraRollOrEnd(s1)
  }

  /** Start: the pass-start bonus is paid once more and the turn ends. */
  function LandOnStart(s: State, p: nat): (r: State)
    requires Wf(s) && p < |s.players|
    ensures Settled(s, r) && !r.players[r.current].inJail && r.canRoll
    ensures r.turnLog == s.turnLog + [r.current]
    ensures r.players[p].money == s.players[p].money + 200
    ensures forall i :: 0 <= i < |s.players| && i != p ==> r.players[i].money == s.players[i].money
  {
    MoneyKept(Credit(s, p, PassStartBonus), EndTurn(Credit(s, p, PassStartBonus)));
    EndTurn(Credit(s, p, PassStartBonus))
  }

  /** A property: unowned, it goes to the purchase gate; another player's, it costs rent; one's own, the
      turn ends. */
  function LandOnProperty(s: State, p: nat): (r: State)
    requires Wf(s) && p < |s.players|
    ensures Settled(s, r)
    ensures !s.players[s.current].inJail ==> !r.players[r.current].inJail
    ensures var pos := s.players[p].stepsMoved;
      && (!IsOwned(s.path[pos]) ==> r == ShowBuyPropertyUI(s, pos, p))
      && (IsOwned(s.path[pos]) && s.path[pos].owner != s.players[p].id ==> r == PayRent(s, p, pos))
      && (s.path[pos].owner == s.players[p].id ==>
            && r.turnLog == s.turnLog + [r.current] && r.canRoll
            && forall i :: 0 <= i < |s.players| ==> r.players[i].money == s.players[i].money)
  {
    var pos := s.players[p].stepsMoved;
    var tile := s.path[pos];
    MoneyKept(s, EndTurn(s));
    if !IsOwned(tile) then ShowBuyPropertyUI(s, pos, p)
    else if tile.owner != s.players[p].id then PayRent(s, p, pos)
    else
      JailOnlyKeepsHoldings(s.players, EndTurn(s).players);
      EndTurn(s)
  }

  /** Chance: the drawn gain or loss is applied; a six rolled by a free current player keeps the turn
      (without unlocking the roll), otherwise the turn ends. */
  function LandOnChance(s: State, p: nat, draw: ChanceDraw): (r: State)
    requires Wf(s) && p < |s.players| && ValidDraw(draw)
    ensures Settled(s, r)
    ensures !s.players[s.current].inJail ==> !r.players[r.current].inJail
    ensures r.players[p].money == s.players[p].money + ChanceDelta(s.players[p].money, draw)
    ensures forall i :: 0 <= i < |s.players| && i != p ==> r.players[i].money == s.players[i].money
    ensures s.rolledSix && !s.players[s.current].inJail ==>
      r.current == s.current && r.turnLog == s.turnLog && r.canRoll == s.canRoll && r.rolledSix
    ensures !(s.rolledSix && !s.players[s.current].inJail) ==> r.turnLog == s.turnLog + [r.current]
  {
    var s1 := Credit(s, p, ChanceDelta(s.players[p].money, draw));
    MoneyKept(s1, EndTurn(s1));
    if s1.rolledSix && !s1.players[s1.current].inJail then s1 else EndTurn(s1)
  }

  /** Jail: a free player is jailed for a full term, an already jailed one keeps the counter, and the turn
      ends; no money changes. */
  function LandOnJail(s: State, p: nat): (r: State)
    requires Wf(s) && p < |s.players|
    ensures Settled(s, r) && !r.players[r.current].inJail && r.canRoll
    ensures r.turnLog == s.turnLog + [r.current]
    ensures forall i :: 0 <= i < |s.players| ==> r.players[i].money == s.players[i].money
  {
    var s1 := if !s.players[p].inJail then s.(players := s.players[p := SendToJail(s.players[p])]) else s;
    JailOnlyKeepsHoldings(s1.players, EndTurn(s1).players);
    MoneyKept(s1, EndTurn(s1));
    EndTurn(s1)
  }

  /** A special property does what a property does, and then the turn is ended unconditionally: one's
      own special property ends the turn once, an affordable offer leaves the panel open while the turn
      has already passed on, and an unaffordable offer or a rent demand may end the turn twice. */
  function LandOnSpecial(s: State, p: nat): (r: State)
    requires Wf(s) && p < |s.players|
    ensures Settled(s, r) && !r.players[r.current].inJail && r.canRoll
    ensures var pos := s.players[p].stepsMoved;
      && (s.path[pos].owner == s.players[p].id ==> r == EndTurn(s))
      && (!IsOwned(s.path[pos]) && s.players[p].money >= s.path[pos].cost ==>
            && r.panelOpen && r.offer == Offer(pos, p)
            && r.turnLog == s.turnLog + [r.current] && r.rolledSix == s.rolledSix)
      && (!IsOwned(s.path[pos]) && s.players[p].money < s.path[pos].cost ==> r == EndTurn(EndTurn(s)))
      && (IsOwned(s.path[pos]) && s.path[pos].owner != s.players[p].id ==> r == EndTurn(PayRent(s, p, pos)))
  {
    var pos := s.players[p].stepsMoved;
    var tile := s.path[pos];
    var s1 :=
      if !IsOwned(tile) then ShowBuyPropertyUI(s, pos, p)
      else if tile.owner != s.players[p].id then PayRent(s, p, pos)
      else s;
    TurnEnds(s, s1)
  }

  /** The final turn end of a special property, keeping what the first step kept. */
  function TurnEnds(s: State, s1: State): (r: State)
    requires Wf(s1) && Settled(s, s1)
    ensures r == EndTurn(s1) && Settled(s, r) && !r.players[r.current].inJail
  {
    JailOnlyKeepsHoldings(s1.players, EndTurn(s1).players);
    EndTurn(s1)
  }

  /** Starting the relocation to jail: the distance to the jail tile is computed and the player is jailed
      for a full term at once; the walk itself happens later. */
  function StartJailWalk(s: State, p: nat): (r: Landing)
    requires Wf(s) && p < |s.players|
    ensures Settled(s, r.state) && r.jailWalk.Some?
    ensures var pos := s.players[p].stepsMoved;
      && r.jailWalk.value < |s.path| && (pos + r.jailWalk.value) % |s.path| == s.jailIndex
    ensures RosterOnly(s, r.state) && r.state.players == s.players[p := s.players[p].(inJail := true, jailTurns := 3)]
  {
    var pos := s.players[p].stepsMoved;
    JailDistanceReachesJail(s.jailIndex, pos, |s.path|);
    Landing(s.(players := s.players[p := SendToJail(s.players[p])]), Some(JailDistance(s.jailIndex, pos, |s.path|)))
  }

  /** Example: on a 20-tile path with the jail at 18, a player on tile 15 is jailed for
      three turns and faces a walk of 3 tiles, which the relocation ends on tile 18. */
  lemma JailWalkExample(s: State, p: nat, draw: ChanceDraw)
    requires Wf(s) && p < |s.players| && ValidDraw(draw)
    requires |s.path| == 20 && s.jailIndex == 18 && s.players[p].stepsMoved == 15
    ensures var r := StartJailWalk(s, p);
      && r.jailWalk == Some(3) && r.state.players[p].inJail && r.state.players[p].jailTurns == 3
      && MoveToJail(r.state, p, 3, draw).players[p].stepsMoved == 18
  {
  }

  /** The effect of the tile player `p` stands on, by kind. A jail walk is started exactly on GoToJail;
      otherwise a free current player stays free. */
  function TileEffect(s: State, p: nat, draw: ChanceDraw): (r: Landing)
    requires Wf(s) && p < |s.players| && ValidDraw(draw)
    ensures Settled(s, r.state)
    ensures r.jailWalk.Some? <==> s.path[s.players[p].stepsMoved].kind == GoToJail
    ensures r.jailWalk.Some? ==> r == StartJailWalk(s, p)
    ensures r.jailWalk.None? && !s.players[s.current].inJail ==> !r.state.players[r.state.current].inJail
    ensures var kind, pl := s.path[s.players[p].stepsMoved].kind, s.players[p];
      && (kind == Start ==> r.state.players[p].money == pl.money + PassStartBonus)
      && (kind == Chance ==> r.state.players[p].money == pl.money + ChanceDelta(pl.money, draw))
      && (kind == Start || kind == Jail ==> r.state.turnLog == s.turnLog + [r.state.current])
      && (kind == Property && s.path[pl.stepsMoved].owner == pl.id ==>
            r.state.turnLog == s.turnLog + [r.state.current])
      && (kind == SpecialProperty && s.path[pl.stepsMoved].owner == pl.id ==> r.state == EndTurn(s))
  {
    match s.path[s.players[p].stepsMoved].kind
    case Start => Landing(LandOnStart(s, p), None)
    case Property => Landing(LandOnProperty(s, p), None)
    case Chance => Landing(LandOnChance(s, p, draw), None)
    case Jail => Landing(LandOnJail(s, p), None)
    case GoToJail => StartJailWalk(s, p)
    case SpecialProperty => Landing(LandOnSpecial(s, p), None)
  }

  /** Settling twice is settling. */
  lemma SettledTrans(s: State, s1: State, s2: State)
    requires Settled(s, s1) && Settled(s1, s2)
    ensures Settled(s, s2)
  {
  }

  /** Player `p` walks `steps` tiles (the movement loop followed by `hasStarted`); nothing else changes. */
  function MoveSteps(s: State, p: nat, steps: nat): (r: State)
    requires Wf(s) && p < |s.players|
    ensures Settled(s, r) && SameJail(s.players, r.players) && RosterOnly(s, r)
    ensures r.players[p] == Moved(s.players[p], steps, |s.path|)
    ensures forall i :: 0 <= i < |s.players| && i != p ==> r.players[i] == s.players[i]
  {
    s.(players := s.players[p := Moved(s.players[p], steps, |s.path|)])
  }

  /** Player `p` is placed on tile `t`; nothing else changes. */
  function PlaceAt(s: State, p: nat, t: int): (r: State)
    requires Wf(s) && p < |s.players| && 0 <= t < |s.path|
    ensures Settled(s, r) && SameJail(s.players, r.players) && RosterOnly(s, r)
    ensures r.players[p] == s.players[p].(stepsMoved := t)
    ensures forall i :: 0 <= i < |s.players| && i != p ==> r.players[i] == s.players[i]
  {
    s.(players := s.players[p := s.players[p].(stepsMoved := t)])
  }

  /** A walk of `steps` tiles from player `p`'s position ends on the jail tile. */
  predicate WalkEndsOnJail(s: State, p: nat, steps: nat)
    requires Wf(s) && p < |s.players|
  {
    (s.players[p].stepsMoved + steps) % |s.path| == s.jailIndex
  }

  /** The relocation itself: the ordinary movement over the computed distance (which may pay the wrap
      bonus), the landing tile's effect, the position set to the jail index, and one more turn end.
      The player ends on the jail tile and the turn at a free player. */
  function MoveToJail(s: State, p: nat, steps: nat, draw: ChanceDraw): (r: State)
    requires Wf(s) && p < |s.players| && ValidDraw(draw)
    requires WalkEndsOnJail(s, p, steps)
    ensures Settled(s, r) && !r.players[r.current].inJail && r.canRoll
    ensures r.players[p].stepsMoved == s.jailIndex
  {
    var s1 := MoveSteps(s, p, steps);
    var landed := TileEffect(s1, p, draw).state;
    var s2 := PlaceAt(landed, p, s.jailIndex);
    SettledTrans(s, s1, landed);
    SettledTrans(s, landed, s2);
    JailOnlyKeepsHoldings(s2.players, EndTurn(s2).players);
    SettledTrans(s, s2, EndTurn(s2));
    EndTurn(s2)
  }

  /** A relocation walk that ends on the jail tile pays exactly what any walk over that distance pays:
      the pass-start bonus for every wrap once the player has started (the walk from GoToJail always
      does, since the distance is computed to reach the jail tile). */
  lemma MoveToJailPaysWalk(s: State, p: nat, steps: nat, draw: ChanceDraw)
    requires Wf(s) && p < |s.players| && ValidDraw(draw)
    requires WalkEndsOnJail(s, p, steps)
    ensures var pl, r := s.players[p], MoveToJail(s, p, steps, draw);
      r.players[p].money == pl.money + (if pl.hasStarted then 200 * ((pl.stepsMoved + steps) / |s.path|) else 0)
  {
    var s1 := MoveSteps(s, p, steps);
    assert s1.path[s1.players[p].stepsMoved].kind == Jail;
    var landed := TileEffect(s1, p, draw).state;
    assert landed == LandOnJail(s1, p);
    assert landed.players[p].money == s1.players[p].money;
  }

  lemma MoveToJailUnfold(s: State, p: nat, steps: nat, draw: ChanceDraw)
    requires Wf(s) && p < |s.players| && ValidDraw(draw)
    requires WalkEndsOnJail(s, p, steps)
    ensures MoveToJail(s, p, steps, draw)
      == EndTurn(PlaceAt(TileEffect(MoveSteps(s, p, steps), p, draw).state, p, s.jailIndex))
  {
  }

  /** A jailed player landing on the Jail tile stays as they are; the turn ends. */
  lemma JailedLandsOnJail(s: State, p: nat, draw: ChanceDraw)
    requires Wf(s) && p < |s.players| && ValidDraw(draw)
    requires s.path[s.players[p].stepsMoved].kind == Jail && s.players[p].inJail
    ensures TileEffect(s, p, draw) == Landing(EndTurn(s), None)
  {
  }
}

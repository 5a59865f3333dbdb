/** Whole-roll consequences of the turn rules, each for the two-player game the board is built for. */
module Scenarios {
  import opened Wrappers
  import opened Tiles
  import opened Players
  import opened Roster
  import opened Turns
  import opened Purchase
  import opened Effects
  import opened Round

  /** The walk over the computed distance leaves the mover, still jailed for three turns, on the jail
      tile, with the opponent free and the mover still current. */
  lemma WalkReachesJail(s: State, p: nat, d: nat)
    requires Wf(s) && |s.players| == 2 && p < 2 && s.current == p
    requires s.players[p].inJail && s.players[p].jailTurns == 3 && !s.players[1 - p].inJail
    requires WalkEndsOnJail(s, p, d)
    ensures var s1 := MoveSteps(s, p, d);
      && Wf(s1) && |s1.players| == 2 && s1.current == p && s1.jailIndex == s.jailIndex
      && s1.players[p].inJail && s1.players[p].jailTurns == 3 && !s1.players[1 - p].inJail
      && s1.path[s1.players[p].stepsMoved].kind == Jail
  {
  }

  /** Landing there ends the mover's turn (the opponent is free, so the opponent becomes current), and
      the mover is then put on the jail index. */
  lemma LandingPassesTurn(s1: State, p: nat, draw: ChanceDraw)
    requires Wf(s1) && |s1.players| == 2 && p < 2 && s1.current == p && ValidDraw(draw)
    requires s1.players[p].inJail && s1.players[p].jailTurns == 3 && !s1.players[1 - p].inJail
    requires s1.path[s1.players[p].stepsMoved].kind == Jail
    ensures var s2 := PlaceAt(TileEffect(s1, p, draw).state, p, s1.jailIndex);
      && Wf(s2) && |s2.players| == 2 && s2.current == 1 - p
      && s2.players[p].inJail && s2.players[p].jailTurns == 3 && s2.players[p].stepsMoved == s1.jailIndex
      && !s2.players[1 - p].inJail
  {
    JailedLandsOnJail(s1, p, draw);
    assert NextIndex(p, 2) == 1 - p;
  }

  /** The relocation walk of a freshly jailed mover, with a free opponent: the landing on the jail tile
      ends the turn (the opponent's turn starts), the final turn end makes the mover serve a jail turn at
      once, and the opponent plays on. */
  lemma JailWalkServesAtOnce(s: State, p: nat, d: nat, draw: ChanceDraw)
    requires Wf(s) && |s.players| == 2 && p < 2 && s.current == p && ValidDraw(draw)
    requires s.players[p].inJail && s.players[p].jailTurns == 3 && !s.players[1 - p].inJail
    requires WalkEndsOnJail(s, p, d)
    ensures var r := MoveToJail(s, p, d, draw);
      && r.players[p].inJail && r.players[p].jailTurns == 2 && r.players[p].stepsMoved == s.jailIndex
      && r.current == 1 - p
  {
    MoveToJailUnfold(s, p, d, draw);
    WalkReachesJail(s, p, d);
    var s1 := MoveSteps(s, p, d);
    LandingPassesTurn(s1, p, draw);
    var s2 := PlaceAt(TileEffect(s1, p, draw).state, p, s.jailIndex);
    SkipJailedOpponent(s2);
  }

  /** The landing on GoToJail, followed by the six rule, leaves the mover current, jailed for a full
      term and facing a walk that ends on the jail tile. */
  lemma SentOffByTile(moved: State, p: nat, draw: ChanceDraw)
    requires Wf(moved) && |moved.players| == 2 && p < 2 && moved.current == p && ValidDraw(draw)
    requires !moved.players[1 - p].inJail
    requires moved.path[moved.players[p].stepsMoved].kind == GoToJail
    ensures var landing := TileEffect(moved, p, draw);
      && landing.jailWalk.Some?
      && var after := AfterMove(landing.state, p);
      && Wf(after) && |after.players| == 2 && after.current == p
      && after.players[p].inJail && after.players[p].jailTurns == 3 && !after.players[1 - p].inJail
      && WalkEndsOnJail(after, p, landing.jailWalk.value)
      && after.jailIndex == moved.jailIndex
  {
  }

  /** A roll that lands a free mover on GoToJail, with a free opponent: the mover ends on the jail tile,
      already one turn into the three-turn term, and it is the opponent's turn; a six does not help. */
  lemma RollIntoJail(s: State, face: int, draw: ChanceDraw)
    requires Wf(s) && |s.players| == 2 && s.canRoll && 0 <= face < 6 && ValidDraw(draw)
    requires !s.players[s.current].inJail && !s.players[1 - s.current].inJail
    requires s.path[(s.players[s.current].stepsMoved + face + 1) % |s.path|].kind == GoToJail
    ensures var r, p := RollDice(s, face, draw), s.current;
      && r.current == 1 - p
      && r.players[p].inJail && r.players[p].jailTurns == 2 && r.players[p].stepsMoved == s.jailIndex
  {
    var p := s.current;
    var thrown := Thrown(s, face);
    var moved := MoveSteps(thrown, p, face + 1);
    assert moved.path[moved.players[p].stepsMoved].kind == GoToJail;
    SentOffByTile(moved, p, draw);
    var landing := TileEffect(moved, p, draw);
    var after := AfterMove(landing.state, p);
    JailWalkServesAtOnce(after, p, landing.jailWalk.value, draw);
    assert RollDice(s, face, draw) == MoveToJail(after, p, landing.jailWalk.value, draw);
  }

  /** Rent owed to a free opponent, without a six: the rent moves and the turn passes to the opponent. */
  lemma RentPassesTurn(s: State, p: nat)
    requires Wf(s) && |s.players| == 2 && p < 2 && s.current == p && !s.rolledSix
    requires !s.players[p].inJail && !s.players[1 - p].inJail
    requires s.players[p].id != s.players[1 - p].id
    requires s.path[s.players[p].stepsMoved].owner == s.players[1 - p].id
    ensures var r, rent := PayRent(s, p, s.players[p].stepsMoved), s.path[s.players[p].stepsMoved].rent;
      && Wf(r) && |r.players| == 2 && r.current == 1 - p
      && !r.players[p].inJail && !r.players[1 - p].inJail
      && r.players[p].money == s.players[p].money - rent
      && r.players[1 - p].money == s.players[1 - p].money + rent
      && r.turnLog == s.turnLog + [1 - p]
  {
    var owner := PlayerById(s.players, s.players[1 - p].id);
    assert owner == Some(1 - p);
    var s1 := Transfer(s, p, 1 - p, s.path[s.players[p].stepsMoved].rent);
    assert NextIndex(p, 2) == 1 - p;
    assert !s1.players[1 - p].inJail;
  }

  /** Rent owed to a jailed opponent after a six: nothing is paid and the six does not help; the turn
      ends, the opponent serves a jail turn, and the turn comes straight back to the mover announced
      anew, with the six still unused. */
  lemma WaivedRentIgnoresSix(s: State, p: nat)
    requires Wf(s) && |s.players| == 2 && p < 2 && s.current == p && s.rolledSix
    requires !s.players[p].inJail && s.players[1 - p].inJail
    requires s.players[p].id != s.players[1 - p].id
    requires s.path[s.players[p].stepsMoved].owner == s.players[1 - p].id
    ensures var r := PayRent(s, p, s.players[p].stepsMoved);
      && r.current == p && r.canRoll && r.rolledSix
      && r.players[1 - p].jailTurns == s.players[1 - p].jailTurns - 1
      && r.players[p].money == s.players[p].money && r.players[1 - p].money == s.players[1 - p].money
      && r.turnLog == s.turnLog + [p]
  {
    var t := s.players[p].stepsMoved;
    assert PlayerById(s.players, s.players[1 - p].id) == Some(1 - p);
    PayRentBranches(s, p, t);
    SkipJailedOpponent(s);
  }

  /** Rent owed to a free opponent after a six: the rent moves and the mover rolls again; the six is
      used up and no turn is announced. */
  lemma PaidRentSixRollsAgain(s: State, p: nat)
    requires Wf(s) && |s.players| == 2 && p < 2 && s.current == p && s.rolledSix
    requires !s.players[p].inJail && !s.players[1 - p].inJail
    requires s.players[p].id != s.players[1 - p].id
    requires s.path[s.players[p].stepsMoved].owner == s.players[1 - p].id
    ensures var r, rent := PayRent(s, p, s.players[p].stepsMoved), s.path[s.players[p].stepsMoved].rent;
      && r.current == p && r.canRoll && !r.rolledSix && r.turnLog == s.turnLog
      && r.players[p].money == s.players[p].money - rent
      && r.players[1 - p].money == s.players[1 - p].money + rent
  {
    var t := s.players[p].stepsMoved;
    assert PlayerById(s.players, s.players[1 - p].id) == Some(1 - p);
    PayRentBranches(s, p, t);
    PayRentMoney(s, p, t);
  }

  /** A free mover landing on Jail with a free opponent is jailed for the full term and the turn passes
      to the opponent. */
  lemma LandOnJailLocksUp(s: State, p: nat)
    requires Wf(s) && |s.players| == 2 && p < 2 && s.current == p
    requires !s.players[p].inJail && !s.players[1 - p].inJail
    ensures var r := LandOnJail(s, p);
      && r.players[p].inJail && r.players[p].jailTurns == JailTerm
      && r.current == 1 - p && r.turnLog == s.turnLog + [1 - p]
  {
    assert NextIndex(p, 2) == 1 - p;
  }

  /** An affordable unowned special property, with a free opponent: the buy panel opens for the mover,
      but the final turn end has already handed the turn to the opponent. */
  lemma SpecialOfferPassesTurn(s: State, p: nat)
    requires Wf(s) && |s.players| == 2 && p < 2 && s.current == p
    requires !s.players[p].inJail && !s.players[1 - p].inJail
    requires s.path[s.players[p].stepsMoved].owner == Unowned
    requires s.players[p].money >= s.path[s.players[p].stepsMoved].cost
    ensures var r := LandOnSpecial(s, p);
      && r.panelOpen && r.offer == Offer(s.players[p].stepsMoved, p)
      && r.current == 1 - p && r.turnLog == s.turnLog + [1 - p]
  {
    assert NextIndex(p, 2) == 1 - p;
  }

  /** A special property owned by a free opponent, without a six: the rent moves, the first turn end
      hands the turn to the opponent and the second hands it straight back, so the mover plays again. */
  lemma SpecialRentReturnsTurn(s: State, p: nat)
    requires Wf(s) && |s.players| == 2 && p < 2 && s.current == p && !s.rolledSix
    requires !s.players[p].inJail && !s.players[1 - p].inJail
    requires s.players[p].id != s.players[1 - p].id
    requires s.path[s.players[p].stepsMoved].kind == SpecialProperty
    requires s.path[s.players[p].stepsMoved].owner == s.players[1 - p].id
    ensures var r, rent := LandOnSpecial(s, p), s.path[s.players[p].stepsMoved].rent;
      && r.current == p && r.canRoll
      && r.players[p].money == s.players[p].money - rent
      && r.players[1 - p].money == s.players[1 - p].money + rent
      && r.turnLog == s.turnLog + [1 - p, p]
  {
    RentPassesTurn(s, p);
    assert PlayerOk(s.players[1 - p], |s.path|);
    SpecialChargesRent(s, p);
    var s1 := PayRent(s, p, s.players[p].stepsMoved);
    assert NextIndex(1 - p, 2) == p;
  }

  /** On a special property owned by someone else, the effect is the rent followed by one more turn end. */
  lemma SpecialChargesRent(s: State, p: nat)
    requires Wf(s) && p < |s.players|
    requires s.path[s.players[p].stepsMoved].owner != Unowned
    requires s.path[s.players[p].stepsMoved].owner != s.players[p].id
    ensures LandOnSpecial(s, p) == EndTurn(PayRent(s, p, s.players[p].stepsMoved))
  {
  }

  /** An unlocked roll that starts no jail walk is the throw, the move, the landing and the six rule. */
  lemma RollWithoutJailWalk(s: State, face: int, draw: ChanceDraw)
    requires Wf(s) && s.canRoll && 0 <= face < 6 && ValidDraw(draw)
    requires TileEffect(MoveSteps(Thrown(s, face), s.current, face + 1), s.current, draw).jailWalk.None?
    ensures RollDice(s, face, draw)
      == AfterMove(TileEffect(MoveSteps(Thrown(s, face), s.current, face + 1), s.current, draw).state, s.current)
  {
  }

  /** After a six, the thrown-and-moved state: the mover, still current and free, stands on the tile six
      on from where they were, and the roll is locked. */
  lemma MovedBySix(s: State)
    requires Wf(s) && !s.players[s.current].inJail
    ensures var moved := MoveSteps(Thrown(s, 5), s.current, 6);
      && Wf(moved) && moved.current == s.current && moved.rolledSix && !moved.canRoll
      && !moved.players[s.current].inJail && moved.turnLog == s.turnLog && moved.path == s.path
      && moved.players[s.current].stepsMoved == (s.players[s.current].stepsMoved + 6) % |s.path|
      && moved.players[s.current].money >= s.players[s.current].money
  {
  }

  /** A six that lands a free mover on an unowned property they can afford: the buy panel opens for that
      property, and the six rule unlocks the roll while the decision is still pending. */
  lemma SixUnlocksDuringPurchase(s: State, draw: ChanceDraw)
    requires Wf(s) && s.canRoll && ValidDraw(draw) && !s.players[s.current].inJail
    requires var t := (s.players[s.current].stepsMoved + 6) % |s.path|;
      && s.path[t].kind == Property && s.path[t].owner == Unowned && s.players[s.current].money >= s.path[t].cost
    ensures var r, t := RollDice(s, 5, draw), (s.players[s.current].stepsMoved + 6) % |s.path|;
      && r.panelOpen && r.offer == Offer(t, s.current) && r.canRoll && r.current == s.current
  {
    var p := s.current;
    MovedBySix(s);
    var moved := MoveSteps(Thrown(s, 5), p, 6);
    var t := moved.players[p].stepsMoved;
    var shown := ShowBuyPropertyUI(moved, t, p);
    assert TileEffect(moved, p, draw) == Landing(shown, None);
    RollWithoutJailWalk(s, 5, draw);
  }

  /** A six that lands a free mover on Chance: the gain or loss applies, the turn stays with the mover and
      the roll is unlocked again. */
  lemma SixKeepsTurnOnChance(s: State, draw: ChanceDraw)
    requires Wf(s) && s.canRoll && ValidDraw(draw) && !s.players[s.current].inJail
    requires s.path[(s.players[s.current].stepsMoved + 6) % |s.path|].kind == Chance
    ensures var r, p := RollDice(s, 5, draw), s.current;
      && r.current == p && r.canRoll && r.turnLog == s.turnLog
  {
    var p := s.current;
    MovedBySix(s);
    var moved := MoveSteps(Thrown(s, 5), p, 6);
    var s1 := Credit(moved, p, ChanceDelta(moved.players[p].money, draw));
    assert LandOnChance(moved, p, draw) == s1;
    assert TileEffect(moved, p, draw) == Landing(s1, None);
    RollWithoutJailWalk(s, 5, draw);
  }
}

/** The game state and the turn controller: ending a turn, starting the next one (a jailed player's
    turn is spent serving one jail turn), and granting an extra roll. */
module Turns {
  import opened Tiles
  import opened Players
  import Arith

  /** The purchase the buy panel was last opened for: the tile and the buyer's roster index. */
  datatype Offer = NoOffer | Offer(tile: nat, buyer: nat)

  /** Everything the rules read and write.
      `canRoll` is the roll lock, `rolledSix` the extra-turn flag, `offer`/`panelOpen` the pending
      purchase decision, and `turnLog` the roster indices announced to turn-change listeners. */
  datatype State = State(
    players: seq<Player>,
    path: seq<Tile>,
    jailIndex: int,
    current: int,
    canRoll: bool,
    rolledSix: bool,
    offer: Offer,
    panelOpen: bool,
    turnLog: seq<nat>)

  predicate PlayersOk(players: seq<Player>, pathLength: int) {
    forall i :: 0 <= i < |players| ==> PlayerOk(players[i], pathLength)
  }

  /** The structural invariant every rule keeps. */
  predicate Wf(s: State) {
    && |s.players| >= 1 && |s.path| >= 1
    && 0 <= s.current < |s.players|
    && 0 <= s.jailIndex < |s.path| && s.path[s.jailIndex].kind == Jail
    && PlayersOk(s.players, |s.path|)
    && (s.panelOpen ==> s.offer.Offer? && s.offer.tile < |s.path| && s.offer.buyer < |s.players|)
  }

  /** The jail turns all players together still have to serve. */
  function JailSum(players: seq<Player>): nat {
    JailPrefix(players, |players|)
  }

  /** The jail turns the first `k` players still have to serve. */
  function JailPrefix(players: seq<Player>, k: nat): nat
    requires k <= |players|
  {
    if k == 0 then 0 else JailPrefix(players, k - 1) + Served(players[k - 1])
  }

  /** Replacing one player changes the total by the change in that player's turns to serve. */
  lemma JailSumUpdate(players: seq<Player>, i: int, pl: Player)
    requires 0 <= i < |players|
    ensures JailSum(players[i := pl]) == JailSum(players) - Served(players[i]) + Served(pl)
  {
    JailPrefixUpdate(players, i, pl, |players|);
  }

  lemma {:induction false} JailPrefixUpdate(players: seq<Player>, i: int, pl: Player, k: nat)
    requires 0 <= i < |players| && k <= |players|
    ensures JailPrefix(players[i := pl], k) == JailPrefix(players, k) - (if i < k then Served(players[i]) - Served(pl) else 0)
  {
    if k > 0 {
      JailPrefixUpdate(players, i, pl, k - 1);
    }
  }

  /** Only the jail flags and counters differ, and no counter went up. */
  predicate JailOnlyChanged(before: seq<Player>, after: seq<Player>) {
    && |before| == |after|
    && forall i :: 0 <= i < |before| ==>
      && after[i] == before[i].(inJail := after[i].inJail, jailTurns := after[i].jailTurns)
      && after[i].jailTurns <= before[i].jailTurns
  }

  /** The roster ids and owned lists are the same. */
  predicate SameHoldings(before: seq<Player>, after: seq<Player>) {
    |before| == |after| && forall i :: 0 <= i < |before| ==> after[i].id == before[i].id && after[i].owned == before[i].owned
  }

  /** The jail flags and counters are the same. */
  predicate SameJail(before: seq<Player>, after: seq<Player>) {
    |before| == |after| && forall i :: 0 <= i < |before| ==>
      after[i].inJail == before[i].inJail && after[i].jailTurns == before[i].jailTurns
  }

  /** Only the roster differs: the board, the turn and the purchase decision are as they were. */
  predicate RosterOnly(s: State, r: State) {
    && r.path == s.path && r.jailIndex == s.jailIndex && r.current == s.current
    && r.canRoll == s.canRoll && r.rolledSix == s.rolledSix && r.offer == s.offer
    && r.panelOpen == s.panelOpen && r.turnLog == s.turnLog
  }

  /** The roster index after `i` among `n`, wrapping to 0 after the last one. */
  function NextIndex(i: int, n: int): (j: int)
    requires 0 <= i < n
    ensures 0 <= j < n
  {
    if i + 1 == n then 0 else i + 1
  }

  /** The wrap-around is the remainder by the roster size. */
  lemma NextIndexIsMod(i: int, n: int)
    requires 0 <= i < n
    ensures NextIndex(i, n) == (i + 1) % n
  {
    if i + 1 == n {
      assert (i + 1) % n == 0 by { Arith.DivModUnique(i + 1, n, 1, 0); }
    } else {
      Arith.ModSmall(i + 1, n);
    }
  }

  /** The current player, who is jailed, serves one jail turn: the counter goes down by one and the
      player is released when it reaches zero; the total left to serve drops by one. */
  function ServeJailTurn(s: State): (u: State)
    requires Wf(s) && s.players[s.current].inJail
    ensures Wf(u) && RosterOnly(s, u) && JailOnlyChanged(s.players, u.players)
    ensures JailSum(u.players) == JailSum(s.players) - 1
    ensures u.players[s.current] == DecreaseJailTurn(s.players[s.current])
    ensures forall i :: 0 <= i < |s.players| && i != s.current ==> u.players[i] == s.players[i]
  {
    var c := s.current;
    JailCountdown(s.players[c]);
    JailSumUpdate(s.players, c, DecreaseJailTurn(s.players[c]));
    s.(players := s.players[c := DecreaseJailTurn(s.players[c])])
  }

  lemma JailOnlyTrans(a: seq<Player>, b: seq<Player>, c: seq<Player>)
    requires JailOnlyChanged(a, b) && JailOnlyChanged(b, c)
    ensures JailOnlyChanged(a, c)
  {
  }

  /** Ending a turn hands it to the next roster index; starting that turn may skip jailed players.
      The turn always comes to rest at a free player with the roll unlocked and announced once; only jail
      counters change, and the index has moved on by one plus one per jail turn served on the way. */
  function EndTurn(s: State): (r: State)
    requires Wf(s)
    ensures Wf(r) && JailOnlyChanged(s.players, r.players)
    ensures r.path == s.path && r.jailIndex == s.jailIndex && r.rolledSix == s.rolledSix
    ensures r.offer == s.offer && r.panelOpen == s.panelOpen
    ensures !r.players[r.current].inJail && r.canRoll
    ensures r.turnLog == s.turnLog + [r.current]
    ensures var next := NextIndex(s.current, |s.players|);
      !s.players[next].inJail ==> r == s.(current := next, canRoll := true, turnLog := s.turnLog + [next])
    decreases JailSum(s.players), 1
  {
    StartTurn(s.(current := NextIndex(s.current, |s.players|)))
  }

  /** Starting the current player's turn: a jailed player serves one jail turn and the turn passes on
      (the roll stays locked and nothing is announced for them); a free player gets the roll. */
  function StartTurn(s: State): (r: State)
    requires Wf(s)
    ensures Wf(r) && JailOnlyChanged(s.players, r.players)
    ensures r.path == s.path && r.jailIndex == s.jailIndex && r.rolledSix == s.rolledSix
    ensures r.offer == s.offer && r.panelOpen == s.panelOpen
    ensures !r.players[r.current].inJail && r.canRoll
    ensures r.turnLog == s.turnLog + [r.current]
    ensures !s.players[s.current].inJail ==> r == s.(canRoll := true, turnLog := s.turnLog + [s.current])
    decreases JailSum(s.players), 0
  {
    if s.players[s.current].inJail then
      var u := ServeJailTurn(s);
      JailOnlyTrans(s.players, u.players, EndTurn(u).players);
      EndTurn(u)
    else
      s.(turnLog := s.turnLog + [s.current], canRoll := true)
  }

  /** Where the turn comes to rest: one index on from the current player, plus one more for every jail
      turn served on the way, modulo the number of players. */
  lemma {:induction false} EndTurnLandsOn(s: State)
    requires Wf(s)
    ensures JailSum(EndTurn(s).players) <= JailSum(s.players)
    ensures var r := EndTurn(s);
      r.current == (s.current + 1 + (JailSum(s.players) - JailSum(r.players))) % |s.players|
    decreases JailSum(s.players), 1
  {
    var n, c := |s.players|, s.current;
    var t := s.(current := NextIndex(c, n));
    EndTurnUnfold(s);
    StartTurnLandsOn(t);
    var d := JailSum(s.players) - JailSum(EndTurn(s).players);
    assert (NextIndex(c, n) + d) % n == (c + 1 + d) % n by {
      NextIndexIsMod(c, n);
      Arith.ModAdd(c + 1, d, n);
    }
  }

  /** Starting a turn moves the index on by one per jail turn served. */
  lemma {:induction false} StartTurnLandsOn(s: State)
    requires Wf(s)
    ensures JailSum(StartTurn(s).players) <= JailSum(s.players)
    ensures var r := StartTurn(s);
      r.current == (s.current + (JailSum(s.players) - JailSum(r.players))) % |s.players|
    decreases JailSum(s.players), 0
  {
    if s.players[s.current].inJail {
      var u := ServeJailTurn(s);
      StartTurnUnfold(s);
      EndTurnLandsOn(u);
    } else {
      Arith.ModSmall(s.current, |s.players|);
    }
  }

  lemma EndTurnUnfold(s: State)
    requires Wf(s)
    ensures EndTurn(s) == StartTurn(s.(current := NextIndex(s.current, |s.players|)))
  {
  }

  lemma StartTurnUnfold(s: State)
    requires Wf(s) && s.players[s.current].inJail
    ensures StartTurn(s) == EndTurn(ServeJailTurn(s))
  {
  }

  /** The roll is unlocked again for the same player and the six is used up. */
  function EnableDiceRoll(s: State): State {
    s.(canRoll := true, rolledSix := false)
  }

  /** The decision taken after rent is paid and after a purchase decision: a six rolled by a free current
      player gives another roll; otherwise the turn ends. */
  function ExtraRollOrEnd(s: State): (r: State)
    requires Wf(s)
    ensures Wf(r) && JailOnlyChanged(s.players, r.players) && r.path == s.path && r.jailIndex == s.jailIndex
    ensures r.offer == s.offer && r.panelOpen == s.panelOpen
    ensures !r.players[r.current].inJail && r.canRoll
    ensures s.rolledSix && !s.players[s.current].inJail ==> r == s.(canRoll := true, rolledSix := false)
    ensures !(s.rolledSix && !s.players[s.current].inJail) ==> r == EndTurn(s)
  {
    if s.rolledSix && !s.players[s.current].inJail then EnableDiceRoll(s) else EndTurn(s)
  }

  /** With two players and the other one in jail, ending the current player's turn makes the other serve
      one jail turn and gives the turn straight back. A player released this way does not get the turn:
      they have to wait for the next turn end. */
  lemma SkipJailedOpponent(s: State)
    requires Wf(s) && |s.players| == 2 && !s.players[s.current].inJail
    requires s.players[1 - s.current].inJail
    ensures var r, other := EndTurn(s), 1 - s.current;
      && r.current == s.current
      && r.players[other].jailTurns == s.players[other].jailTurns - 1
      && (r.players[other].inJail <==> s.players[other].jailTurns > 1)
      && r.players[s.current] == s.players[s.current]
      && r.turnLog == s.turnLog + [s.current]
  {
    var other := 1 - s.current;
    assert NextIndex(s.current, 2) == other;
    var t := s.(current := other);
    EndTurnUnfold(s);
    StartTurnUnfold(t);
    var u := ServeJailTurn(t);
    assert NextIndex(other, 2) == s.current;
    JailCountdown(s.players[other]);
    assert EndTurn(u) == u.(current := s.current, canRoll := true, turnLog := s.turnLog + [s.current]);
  }
}

/** The running game as one object whose fields the turn rules update in place: the roster, the board,
    the turn controller's index and flags, and the buy panel's pending offer. Every method is the
    step-by-step version of a rule and ends in exactly the state its rule function describes. */
module Engine {
  import opened Wrappers
  import opened Tiles
  import opened Players
  import opened Roster
  import opened Turns
  import Purchase
  import Effects
  import Round
  import Invariants

  class Game {
    var players: seq<Player>
    var path: seq<Tile>
    var jailIndex: int
    var current: int
    var canRoll: bool
    var rolledSix: bool
    var offer: Offer
    var panelOpen: bool
    var turnLog: seq<nat>

    /** The fields as a rule state. */
    function Snap(): State
      reads this
    {
      State(players, path, jailIndex, current, canRoll, rolledSix, offer, panelOpen, turnLog)
    }

    /** The scene as loaded: `n` players with ids 0, 1, ... on the first tile, the roll unlocked. */
    constructor (board: seq<Tile>, jail: int, n: nat)
      requires n >= 1 && 0 <= jail < |board| && board[jail].kind == Jail
      ensures Snap() == Invariants.NewGame(board, jail, n)
    {
      players := seq(n, i => NewPlayer(i));
      path := board;
      jailIndex := jail;
      current := 0;
      canRoll := true;
      rolledSix := false;
      offer := NoOffer;
      panelOpen := false;
      turnLog := [];
    }

    /** The game starts with the first player's turn. */
    method Start()
      requires Wf(Snap())
      modifies this
      ensures Snap() == Turns.StartTurn(old(Snap()))
    {
      StartTurn();
    }

    // ------------------------------------------------------------ the player's own bookkeeping

    /** Player `p`'s money changes by `amount`. */
    method AdjustMoney(p: nat, amount: int)
      requires Wf(Snap()) && p < |players|
      modifies this
      ensures Snap() == Effects.Credit(old(Snap()), p, amount)
    {
      players := players[p := players[p].(money := players[p].money + amount)];
    }

    /** Player `p` serves one jail turn. */
    method DecreaseJailTurn(p: nat)
      requires p < |players|
      modifies this
      ensures players == old(players)[p := Players.DecreaseJailTurn(old(players[p]))]
      ensures Snap() == old(Snap()).(players := players)
    {
      var pl := players[p].(jailTurns := players[p].jailTurns - 1);
      if pl.jailTurns <= 0 {
        pl := pl.(inJail := false);
      }
      players := players[p := pl];
    }

    /** Rent for tile `t`, paid by player `p` to the owner found by id. A jailed owner collects nothing and
      the turn ends at once; otherwise (whether or not anything was paid) the six rule decides. */
    method PayRent(p: nat, t: nat)
      requires Wf(Snap()) && p < |players| && t < |path|
      modifies this
      ensures Snap() == Effects.PayRent(old(Snap()), p, t)
    {
      ghost var s := Snap();
      var tile := path[t];
      var owner := PlayerById(players, tile.owner);
      if owner.Some? && tile.owner != players[p].id {
        if players[owner.value].inJail {
          EndTurn();
          return;
        }
        AdjustMoney(p, -tile.rent);
        AdjustMoney(owner.value, tile.rent);
        assert Snap() == Effects.Transfer(s, p, owner.value, tile.rent);
      }
      ExtraRollOrEnd();
    }

    /** Player `p` walks `steps` tiles one at a time, collecting the bonus on every wrap once started;
      then they count as started and the landing tile takes effect. The result is the jail walk the
      tile started, if any. */
    method MoveSteps(p: nat, steps: nat, draw: ChanceDraw) returns (jailWalk: Option<nat>)
      requires Wf(Snap()) && p < |players| && ValidDraw(draw)
      modifies this
      ensures Effects.Landing(Snap(), jailWalk) == Effects.TileEffect(Effects.MoveSteps(old(Snap()), p, steps), p, draw)
    {
      var totalTiles := |path|;
      ghost var s := Snap();
      ghost var pl0 := players[p];
      for i := 1 to steps + 1
        invariant players == s.players[p := Walk(pl0, i - 1, totalTiles)]
        invariant path == s.path && jailIndex == s.jailIndex && current == s.current && canRoll == s.canRoll
        invariant rolledSix == s.rolledSix && offer == s.offer && panelOpen == s.panelOpen && turnLog == s.turnLog
      {
        var previousStep := players[p].stepsMoved;
        players := players[p := players[p].(stepsMoved := (players[p].stepsMoved + 1) % totalTiles)];
        if players[p].hasStarted && previousStep + 1 > players[p].stepsMoved {
          players := players[p := players[p].(laps := players[p].laps + 1, money := players[p].money + PassStartBonus)];
        }
      }
      players := players[p := players[p].(hasStarted := true)];
      assert Snap() == Effects.MoveSteps(s, p, steps);
      jailWalk := HandleTileEffect(p, draw);
    }

    /** The effect of the tile player `p` stands on. */
    method HandleTileEffect(p: nat, draw: ChanceDraw) returns (jailWalk: Option<nat>)
      requires Wf(Snap()) && p < |players| && ValidDraw(draw)
      modifies this
      ensures Effects.Landing(Snap(), jailWalk) == Effects.TileEffect(old(Snap()), p, draw)
    {
      var pos := players[p].stepsMoved;
      var tile := path[pos];
      jailWalk := None;
      match tile.kind
      case Start =>
        AdjustMoney(p, PassStartBonus);
        EndTurn();
      case Property =>
        if !IsOwned(tile) {
          ShowBuyPropertyUI(pos, p);
        } else if tile.owner != players[p].id {
          PayRent(p, pos);
        } else {
          EndTurn();
        }
      case Chance =>
        AdjustMoney(p, ChanceDelta(players[p].money, draw));
        if !(rolledSix && !players[current].inJail) {
          EndTurn();
        }
      case Jail =>
        if !players[p].inJail {
          players := players[p := players[p].(inJail := true, jailTurns := JailTerm)];
        }
        EndTurn();
      case GoToJail =>
        var stepsToJail := GoToJail(p);
        jailWalk := Some(stepsToJail);
      case SpecialProperty =>
        if !IsOwned(tile) {
          ShowBuyPropertyUI(pos, p);
        } else if tile.owner != players[p].id {
          PayRent(p, pos);
        }
        EndTurn();
    }

    /** The distance to the jail tile is computed and player `p` is jailed for a full term; the walk
      itself is the caller's. */
    method GoToJail(p: nat) returns (stepsToJail: nat)
      requires Wf(Snap()) && p < |players|
      modifies this
      ensures Effects.Landing(Snap(), Some(stepsToJail)) == Effects.StartJailWalk(old(Snap()), p)
    {
      JailDistanceReachesJail(jailIndex, players[p].stepsMoved, |path|);
      stepsToJail := (jailIndex - players[p].stepsMoved + |path|) % |path|;
      players := players[p := players[p].(inJail := true, jailTurns := JailTerm)];
    }

    /** The relocation walk: the ordinary movement over `steps` tiles with its landing effect, the
      position set to the jail index, and one more turn end. */
    method MoveToJail(p: nat, steps: nat, draw: ChanceDraw)
      requires Wf(Snap()) && p < |players| && ValidDraw(draw)
      requires Effects.WalkEndsOnJail(Snap(), p, steps)
      modifies this
      ensures Snap() == Effects.MoveToJail(old(Snap()), p, steps, draw)
    {
      ghost var s := Snap();
      var _ := MoveSteps(p, steps, draw);
      players := players[p := players[p].(stepsMoved := jailIndex)];
      Effects.MoveToJailUnfold(s, p, steps, draw);
      EndTurn();
    }

    // ------------------------------------------------------------ the turn controller

    /** The roll is unlocked again and the six is used up. */
    method EnableDiceRoll()
      modifies this
      ensures Snap() == Turns.EnableDiceRoll(old(Snap()))
    {
      canRoll := true;
      rolledSix := false;
    }

    /** The check written out after rent and after a purchase decision: a six rolled by a free current
      player gives another roll, otherwise the turn ends. */
    method ExtraRollOrEnd()
      requires Wf(Snap())
      modifies this
      ensures Snap() == Turns.ExtraRollOrEnd(old(Snap()))
    {
      if rolledSix && !players[current].inJail {
        EnableDiceRoll();
      } else {
        EndTurn();
      }
    }

    /** The turn passes to the next roster index, whose turn is then started. */
    method EndTurn()
      requires Wf(Snap())
      modifies this
      ensures Snap() == Turns.EndTurn(old(Snap()))
      decreases JailSum(players), 1
    {
      current := NextIndex(current, |players|);
      StartTurn();
    }

    /** A jailed current player serves a jail turn and the turn ends again; a free one gets the roll and
      the turn is announced. */
    method StartTurn()
      requires Wf(Snap())
      modifies this
      ensures Snap() == Turns.StartTurn(old(Snap()))
      decreases JailSum(players), 0
    {
      if players[current].inJail {
        ghost var s := Snap();
        DecreaseJailTurn(current);
        assert Snap() == ServeJailTurn(s);
        EndTurn();
        return;
      }
      turnLog := turnLog + [current];
      canRoll := true;
    }

    /** The roll button: it starts the animation only while the roll is unlocked. `face` is the die's
      random face index, `draw` the Chance card a Chance landing would draw. */
    method RollDice(face: int, draw: ChanceDraw)
      requires Wf(Snap()) && 0 <= face < 6 && ValidDraw(draw)
      modifies this
      ensures Snap() == Round.RollDice(old(Snap()), face, draw)
      ensures Invariants.Inv(old(Snap())) ==> Invariants.Inv(Snap())
    {
      if Invariants.Inv(Snap()) {
        Invariants.RollKeepsInv(Snap(), face, draw);
      }
      if canRoll {
        DiceAnimation(face, draw);
      }
    }

    /** The roll is locked, the die shows `face + 1`, the six flag is set and the current player moves. */
    method DiceAnimation(face: int, draw: ChanceDraw)
      requires Wf(Snap()) && 0 <= face < 6 && ValidDraw(draw)
      modifies this
      ensures Snap() == Round.DiceAnimation(old(Snap()), face, draw)
    {
      canRoll := false;
      var diceValue := face + 1;
      rolledSix := diceValue == 6;
      HandlePlayerMove(current, diceValue, draw);
    }

    /** The move and its landing effect; then a six by a mover who is not in jail unlocks the roll, and
      otherwise the six is used up; a jail walk the landing started runs last. */
    method HandlePlayerMove(p: nat, steps: nat, draw: ChanceDraw)
      requires Wf(Snap()) && p < |players| && ValidDraw(draw)
      modifies this
      ensures Snap() == Round.HandlePlayerMove(old(Snap()), p, steps, draw)
    {
      var jailWalk := MoveSteps(p, steps, draw);
      if rolledSix && !players[p].inJail {
        canRoll := true;
      } else {
        rolledSix := false;
      }
      if jailWalk.Some? {
        MoveToJail(p, jailWalk.value, draw);
      }
    }

    // ------------------------------------------------------------ the purchase panel

    /** Tile `t` is offered to player `p`; one who cannot pay loses the rest of the turn. */
    method ShowBuyPropertyUI(t: nat, p: nat)
      requires Wf(Snap()) && t < |path| && p < |players|
      modifies this
      ensures Snap() == Purchase.ShowBuyPropertyUI(old(Snap()), t, p)
    {
      if players[p].money < path[t].cost {
        EndTurn();
        return;
      }
      offer := Offer(t, p);
      panelOpen := true;
    }

    /** The panel closes; the six rule decides between another roll and the end of the turn. */
    method Pass()
      requires Wf(Snap())
      modifies this
      ensures Snap() == Purchase.Pass(old(Snap()))
      ensures old(panelOpen) && Invariants.Inv(old(Snap())) ==> Invariants.Inv(Snap())
    {
      if panelOpen && Invariants.Inv(Snap()) {
        Invariants.PassKeepsInv(Snap());
      }
      panelOpen := false;
      ExtraRollOrEnd();
    }

    /** The buyer pays for the offered tile, becomes its owner and lists it, when they can still afford
      it; then the panel is passed. */
    method BuyProperty()
      requires Wf(Snap()) && panelOpen
      modifies this
      ensures Snap() == Purchase.BuyProperty(old(Snap()))
      ensures Invariants.Inv(old(Snap())) ==> Invariants.Inv(Snap())
    {
      if Invariants.Inv(Snap()) {
        Invariants.BuyKeepsInv(Snap());
      }
      ghost var s := Snap();
      var t, b := offer.tile, offer.buyer;
      if CanAfford(players[b], path[t].cost) {
        AdjustMoney(b, -path[t].cost);
        path := path[t := path[t].(owner := players[b].id)];
        players := players[b := players[b].(owned := players[b].owned + [t])];
      }
      assert Snap() == Purchase.Purchased(s);
      Pass();
    }
  }
}

# Monopoly turn engine — a Dafny model

This project models the rules engine of a two-player Unity board game. Players move around a circular
path of tiles by die rolls. Each time a player passes the start tile after their first movement, they
collect a bonus of 200. Landing on a tile has an effect, by kind:

- **Start** pays the bonus again, and the turn ends.
- **Property** is offered for sale when unowned, costs rent when someone else owns it, and ends the
  turn when it is the player's own.
- **Chance** takes a random fraction of the player's money or gives half of it.
- **Jail** locks a free player up for three turns, and the turn ends.
- **GoToJail** locks the player up and sends them walking to the jail tile.
- **SpecialProperty** does what a property does, and then always ends the turn.

A six rolled by a player who is not in jail keeps the turn with them only where the landing does not
end it. This happens after Chance, after rent paid to a free owner, and while a purchase decision is
pending. Landing on Start, Jail or GoToJail ends the turn whatever was rolled. So do one's own
property, a property the player cannot afford, rent waived because the owner is in jail, and every
special property. When a jailed player's turn comes, it is spent counting down one of their jail
turns.

The model has two layers:

- **Rule functions.** One function over a `State` value stands for each source operation. The state
  holds the roster, the board, the turn controller's index, roll lock and six flag, the buy panel's
  pending offer, and the log of turn-change announcements. The functions are in modules `Tiles`,
  `Players`, `Roster`, `Turns`, `Purchase`, `Effects` and `Round`. Lemmas about them are in `Turns`,
  `Purchase`, `Effects`, `Invariants` and `Scenarios`.
- **`Engine.Game` class.** Its fields are updated in place, like the source's `GameManager`, `Player`
  and `UIManager` objects. Each method changes the fields step by step, as the source method does. It
  ends in exactly the state its rule function computes (`ensures Snap() == Rule(old(Snap()))`). The
  turn controller's `StartTurn`/`EndTurn` are mutually recursive methods. Movement is a `for` loop with
  an invariant.

Randomness is a parameter: the die's face index is `face`, the Chance card is `draw`. A movement or a
relocation that the source runs as a coroutine is run to its end in one call.

These source behaviours are kept as written:

- A special property's final turn end (Player.cs:213) follows its property effect whatever that was:
  - On one's own special property it is the only turn end.
  - After an affordable offer, the turn has already passed on while the buy panel is still open; see
    `Scenarios.SpecialOfferPassesTurn`.
  - After an unaffordable offer, waived rent, or rent without a six, the turn is ended twice. With two
    free players the mover therefore plays again; see `Scenarios.SpecialRentReturnsTurn`.
  - After rent with a six, the roll the mover regained is followed by a turn end, so the turn passes.
- The relocation to jail reuses the ordinary movement. It can pay the pass-start bonus, and it runs
  the jail tile's landing effect, which ends the turn. It then ends the turn once more. So a freshly
  jailed mover with a free opponent serves their first jail turn at once; see
  `Scenarios.JailWalkServesAtOnce` and `Scenarios.RollIntoJail`.
- A player released from jail does not get that turn.
- Rent waived because the owner is in jail ends the turn even after a six; see
  `Scenarios.WaivedRentIgnoresSix`.
- A six unlocks the roll even while a purchase decision is pending, and the six rule is applied again
  when the player buys or passes; see `Scenarios.SixUnlocksDuringPurchase`.
- Rent is paid without an affordability check, so money can become negative.
- The Chance loss fraction may be 0.31 itself, because Unity's float range is inclusive.

## Model

| member | source | states |
|---|---|---|
| `Tiles.NewTile` | Assets/Scripts/Tile.cs:23 | A tile starts unowned: its owner is the sentinel -1, and kind, cost and rent are as given. |
| `Tiles.OwnedByImpliesOwned` | Assets/Scripts/Tile.cs:25-26 | Owned means the owner is not -1; for any player id (never negative), ownership by that player implies owned. |
| `Tiles.ExactlySixKinds` | Assets/Scripts/Tile.cs:3-12 | The six kinds correspond one-to-one to the enumeration codes 0..5. |
| `Players.NewPlayer` | Assets/Scripts/Player.cs:7-19 | A new player has 1000 money, stands on tile 0, is free with counter 0, owns nothing, has not started and has no laps. |
| `Players.SendToJailStartsTerm` | Assets/Scripts/Player.cs:177-185 | Entering jail sets the flag and a counter of 3 whatever they were, so exactly 3 turns remain to serve. |
| `Players.JailCountdown` | Assets/Scripts/Player.cs:246-261 | One served turn lowers the counter by exactly 1 and releases the player exactly when it was 1. Flag and counter stay consistent, and nothing else changes. |
| `Players.StepCreditsOnWrap` | Assets/Scripts/Player.cs:66-75 | One loop iteration moves to (pos+1) mod L. It pays 200 and a lap exactly when it lands on tile 0 after the first movement. Nothing else changes. |
| `Players.WalkClosedForm` | Assets/Scripts/Player.cs:64-81 | After k iterations the player stands on (pos+k) mod L. A started player has been paid 200 and a lap for each of the (pos+k) div L wraps. |
| `Players.Moved` | Assets/Scripts/Player.cs:60-82 | The whole movement in closed form: position, bonus and laps as above, and the player counts as started. |
| `Players.FirstMoveNeverPays` | Assets/Scripts/Player.cs:69 | A player who has not started is paid nothing and counts no lap, however far they go, and has started afterwards. |
| `Players.JailDistanceReachesJail` | Assets/Scripts/Player.cs:224-225 | The distance to the jail tile lies in [0, L), and walking it from the current tile ends exactly on the jail tile. |
| `Players.ChanceBounds` | Assets/Scripts/Player.cs:147-165 | A loss is the floor of money times the drawn fraction. For a solvent player it is at most 31% and at least the floor of 10%, and the balance stays non-negative. A gain is the floor of half the money. |
| `Players.ChanceLossExample` | Assets/Scripts/Player.cs:152-154 | With 1000 money, a 20% loss leaves 800. |
| `Roster.PlayersOnTile` | Assets/Scripts/GameManager.cs:139-142 | Exactly the roster indices of the players on the tile, in increasing roster order. |
| `Roster.PlayerById` | Assets/Scripts/GameManager.cs:144-147 | The first player with the id: no earlier player has it, and the result is None exactly when no player has it. |
| `Roster.PlayerByIdSameIds` | Assets/Scripts/GameManager.cs:144-147 | The lookup depends on the ids alone. |
| `Roster.TwoOnOneTile` | Assets/Scripts/GameManager.cs:139-142 | Two players on tile 7 are both reported, in roster order. |
| `Turns.NextIndexIsMod` | Assets/Scripts/GameManager.cs:130 | The next index is (i+1) mod n. |
| `Turns.ServeJailTurn` | Assets/Scripts/GameManager.cs:117-120 | The jailed current player serves one turn and no one else changes. The total of jail turns left drops by one, so the turn controller's recursion ends. |
| `Turns.EndTurn` | Assets/Scripts/GameManager.cs:128-132 | The turn rests with a free player, with the roll unlocked, and that player is announced. Only jail state changes. If the next player is free, they simply become current. |
| `Turns.StartTurn` | Assets/Scripts/GameManager.cs:111-126 | As for ending a turn. A free current player keeps the turn, gets the roll and is announced. |
| `Turns.EndTurnLandsOn` | Assets/Scripts/GameManager.cs:128-132 | The turn lands (c + 1 + jail turns served on the way) mod n players on. |
| `Turns.StartTurnLandsOn` | Assets/Scripts/GameManager.cs:111-126 | Starting a turn moves the index on by the jail turns served, mod n. |
| `Turns.ExtraRollOrEnd` | Assets/Scripts/Player.cs:49-57 | A six rolled by a free current player unlocks the roll for the same player and uses the six up. Otherwise the turn ends. |
| `Turns.SkipJailedOpponent` | Assets/Scripts/GameManager.cs:111-132 | With a jailed opponent, ending the mover's turn makes the opponent serve one turn and hands the turn straight back. A player released this way does not play. |
| `Purchase.ShowBuyPropertyUI` | Assets/Scripts/UIManager.cs:73-95 | A player short of the cost loses the rest of the turn and no offer is recorded. Otherwise the offer is recorded and the panel opens, with nothing else changed. |
| `Purchase.Pass` | Assets/Scripts/UIManager.cs:118-133 | The panel closes. After a six by a free current player, that player rolls again; otherwise the turn ends and is announced. |
| `Purchase.Purchased` | Assets/Scripts/UIManager.cs:99-103 | The purchase changes no jail state, no turn field and not the board's size. |
| `Purchase.BuyProperty` | Assets/Scripts/UIManager.cs:97-116 | After buying, the panel is closed and the structure is sound. |
| `Purchase.BuyAffordable` | Assets/Scripts/UIManager.cs:99-109 | An affordable purchase debits exactly the cost, makes the buyer the tile's owner and appends the tile to the buyer's list. No other tile, money or list changes. |
| `Purchase.BuyUnaffordable` | Assets/Scripts/UIManager.cs:110-115 | An unaffordable purchase is exactly a pass: no money, ownership or list changes. |
| `Purchase.BuyExample` | Assets/Scripts/UIManager.cs:99-103 | Buying a 220 tile with 300 leaves 80, and the buyer owns the tile. |
| `Purchase.EndTurnIgnoresAssets` | Assets/Scripts/GameManager.cs:111-132 | Who plays next depends only on jail state, index, log and six flag, never on money, position or ownership. |
| `Purchase.BuySameTurnOutcome` | Assets/Scripts/UIManager.cs:97-133 | Buying and passing end the turn the same way: same next player, roll lock, six flag, announcements and jail state. |
| `Effects.Credit` | Assets/Scripts/Player.cs:21-26 | One player's money changes by the amount, and nothing else changes. |
| `Effects.Transfer` | Assets/Scripts/Player.cs:43-44 | The payer loses the rent and the owner gains it. Everyone else is unchanged, and there is no floor at zero. |
| `Effects.PayRent` | Assets/Scripts/Player.cs:30-58 | Board and holdings are kept, and the turn rests with a free player whose roll is unlocked. Rent waived by a jailed owner ends the turn whatever was rolled. Otherwise a six rolled by a free current player keeps the same player current with the six used up and nothing announced; without one the turn ends and is announced. |
| `Effects.PayRentMoney` | Assets/Scripts/Player.cs:32-47 | To a free owner other than the payer, exactly the rent moves from payer to owner. To a jailed owner, or with no other owner, no money moves. |
| `Effects.PayRentBranches` | Assets/Scripts/Player.cs:32-57 | The three outcomes of a rent demand: a jailed owner gives the plain turn end; a free owner other than the payer gives the transfer followed by the six rule; no such owner gives the six rule alone. |
| `Effects.CollectRent` | Assets/Scripts/Player.cs:43-57 | Exactly the rent moves from payer to owner, and no one else's money changes. Then a six rolled by a free current player keeps the turn with the six used up and nothing announced; otherwise the turn ends and is announced. |
| `Effects.MoneyKept` | Assets/Scripts/GameManager.cs:111-132 | Ending or continuing a turn moves no money. |
| `Effects.LandOnStart` | Assets/Scripts/Player.cs:121-126 | Start pays the lander 200 and no one else anything. The turn ends and is announced, resting with a free player whose roll is unlocked. |
| `Effects.LandOnProperty` | Assets/Scripts/Player.cs:128-142 | An unowned property goes to the purchase gate, and another player's costs that player's rent. On one's own property the turn ends and is announced, and no money moves. Board and holdings are kept, and a free current player stays free. |
| `Effects.LandOnChance` | Assets/Scripts/Player.cs:144-175 | Chance changes the lander's money by exactly the drawn amount and no one else's. After a six by a free current player the turn stays, nothing is announced, and the roll lock and six flag are left as they were. Otherwise the turn ends and is announced. |
| `Effects.LandOnJail` | Assets/Scripts/Player.cs:177-193 | Jail moves no money. The turn ends and is announced, resting with a free player whose roll is unlocked. |
| `Effects.LandOnSpecial` | Assets/Scripts/Player.cs:200-214 | One's own special property ends the turn exactly once. An affordable offer opens the panel, and the turn ends and is announced with the offer pending. An unaffordable offer ends the turn twice, and rent is followed by one more turn end. Board and holdings are kept, and the turn ends with a free player. |
| `Effects.StartJailWalk` | Assets/Scripts/Player.cs:222-234 | The player is jailed for a full term, and the walk's distance is less than L and ends on the jail tile. Nothing else changes. |
| `Effects.TileEffect` | Assets/Scripts/Player.cs:113-220 | A jail walk starts exactly on GoToJail. Start pays the bonus and Chance the drawn amount. Start, Jail and one's own property end the turn, and one's own special property ends it exactly once. Board, holdings and a valid offer are kept, and otherwise a free current player stays free. |
| `Effects.JailWalkExample` | Assets/Scripts/Player.cs:222-244 | On 20 tiles with the jail at 18, a player on 15 is jailed for 3 turns and walks 3 tiles to tile 18. |
| `Effects.MoveSteps` | Assets/Scripts/Player.cs:60-82 | Only the mover's entry changes, to the closed form of the movement. |
| `Effects.PlaceAt` | Assets/Scripts/Player.cs:240 | Only the player's position changes. |
| `Effects.MoveToJail` | Assets/Scripts/Player.cs:236-244 | Given a walk that ends on the jail tile, the player ends on the jail index, the turn rests with a free player, and board and holdings are kept. |
| `Effects.MoveToJailPaysWalk` | Assets/Scripts/Player.cs:236-238 | A relocation walk pays exactly the ordinary movement bonus: 200 per wrap once started. |
| `Effects.JailedLandsOnJail` | Assets/Scripts/Player.cs:186-192 | A jailed player landing on the jail tile keeps their counter, and the turn ends. |
| `Round.Thrown` | Assets/Scripts/GameManager.cs:67-81 | The roll is locked and the six flag is set exactly when the die shows six. Nothing else changes. |
| `Round.AfterMove` | Assets/Scripts/GameManager.cs:92-102 | A six by a mover who is not jailed unlocks the roll; otherwise the six is used up. No player changes. |
| `Round.HandlePlayerMove` | Assets/Scripts/GameManager.cs:87-103 | Board and holdings are kept, and a free mover who was current leaves the turn with a free player. |
| `Round.DiceAnimation` | Assets/Scripts/GameManager.cs:63-85 | The same for the whole animation. |
| `Round.RollDice` | Assets/Scripts/GameManager.cs:56-60 | A locked roll changes nothing. Otherwise the animation runs. |
| `Invariants.NewGame` | Assets/Scripts/GameManager.cs:19-33 | The loaded scene: players 0..n-1 as new players, the roll unlocked, player 0 current, no offer. |
| `Invariants.Opening` | Assets/Scripts/GameManager.cs:51-54 | The first turn goes to player 0 and is announced. |
| `Invariants.OpeningInv` | Assets/Scripts/GameManager.cs:51-54 | A fresh board with players numbered in order satisfies the game invariant. |
| `Invariants.RollKeepsInv` | Assets/Scripts/GameManager.cs:56-103 | A roll keeps the invariant: the turn is with a free player, an open offer is unowned, ids are distinct, and every owned tile and every listed holding agree. |
| `Invariants.PassKeepsInv` | Assets/Scripts/UIManager.cs:118-133 | Passing keeps the invariant. |
| `Invariants.PurchasedKeepsHoldings` | Assets/Scripts/UIManager.cs:99-103 | The purchase keeps ids distinct and ownership consistent both ways. |
| `Invariants.BuyKeepsInv` | Assets/Scripts/UIManager.cs:97-116 | Buying keeps the invariant. |
| `Invariants.OwnershipIsFinal` | Assets/Scripts/UIManager.cs:102 | An owned tile keeps its owner through every roll, pass and purchase. |
| `Scenarios.JailWalkServesAtOnce` | Assets/Scripts/Player.cs:236-244 | With a free opponent, the relocation walk leaves the mover on the jail tile with 2 turns to serve, and the opponent current. |
| `Scenarios.RollIntoJail` | Assets/Scripts/Player.cs:195-198 | A roll onto GoToJail ends with the mover on the jail tile with 2 turns to serve, and the opponent current, six or not. |
| `Scenarios.RentPassesTurn` | Assets/Scripts/Player.cs:30-58 | Rent to a free opponent without a six moves the rent and passes the turn to the opponent. |
| `Scenarios.WaivedRentIgnoresSix` | Assets/Scripts/Player.cs:36-41 | Rent owed to a jailed opponent after a six moves no money. The opponent serves one jail turn, and the turn comes back to the mover announced anew, with the six unused. |
| `Scenarios.PaidRentSixRollsAgain` | Assets/Scripts/Player.cs:43-53 | Rent paid to a free opponent after a six moves the rent. The mover rolls again with the six used up, and nothing is announced. |
| `Scenarios.SpecialRentReturnsTurn` | Assets/Scripts/Player.cs:200-214 | Rent on a special property owned by a free opponent moves the rent. The two turn ends give the turn back to the mover. |
| `Scenarios.SpecialOfferPassesTurn` | Assets/Scripts/Player.cs:200-213 | An affordable unowned special property, with a free opponent, opens the panel for the mover while the turn passes to the opponent. |
| `Scenarios.LandOnJailLocksUp` | Assets/Scripts/Player.cs:177-192 | A free mover on Jail with a free opponent is jailed for three turns, and the turn passes to the opponent. |
| `Scenarios.SixUnlocksDuringPurchase` | Assets/Scripts/GameManager.cs:87-103 | A six onto an affordable unowned property opens the panel for it and also unlocks the roll. |
| `Scenarios.SixKeepsTurnOnChance` | Assets/Scripts/Player.cs:166-170 | A six onto Chance keeps the turn, unlocks the roll and announces nothing. |
| `Engine.Game.constructor` | Assets/Scripts/GameManager.cs:19-33 | The fields form the loaded scene. |
| `Engine.Game.Start` | Assets/Scripts/GameManager.cs:51-54 | The fields become the started first turn. |
| `Engine.Game.AdjustMoney` | Assets/Scripts/Player.cs:21-26 | The fields become `Effects.Credit` of the old ones. |
| `Engine.Game.DecreaseJailTurn` | Assets/Scripts/Player.cs:246-261 | Only the player's entry changes: it is decremented, and the player is released at 0. |
| `Engine.Game.PayRent` | Assets/Scripts/Player.cs:30-58 | The fields become `Effects.PayRent` of the old ones. |
| `Engine.Game.MoveSteps` | Assets/Scripts/Player.cs:60-86 | The loop's fields match the walk after each step. The final state is the tile effect after the movement, and the started jail walk is returned. |
| `Engine.Game.HandleTileEffect` | Assets/Scripts/Player.cs:113-220 | The fields and the returned jail walk are `Effects.TileEffect` of the old fields. |
| `Engine.Game.GoToJail` | Assets/Scripts/Player.cs:222-234 | The fields and the returned distance are `Effects.StartJailWalk`. |
| `Engine.Game.MoveToJail` | Assets/Scripts/Player.cs:236-244 | Given a walk that ends on the jail tile, the fields become `Effects.MoveToJail` of the old ones. |
| `Engine.Game.EnableDiceRoll` | Assets/Scripts/GameManager.cs:105-109 | The roll is unlocked and the six is used up; nothing else changes. |
| `Engine.Game.ExtraRollOrEnd` | Assets/Scripts/Player.cs:49-57 | The fields become `Turns.ExtraRollOrEnd` of the old ones. |
| `Engine.Game.EndTurn` | Assets/Scripts/GameManager.cs:128-132 | The fields become `Turns.EndTurn` of the old ones. |
| `Engine.Game.StartTurn` | Assets/Scripts/GameManager.cs:111-126 | The fields become `Turns.StartTurn` of the old ones. |
| `Engine.Game.RollDice` | Assets/Scripts/GameManager.cs:56-60 | The fields become `Round.RollDice`, and the game invariant is kept. |
| `Engine.Game.DiceAnimation` | Assets/Scripts/GameManager.cs:63-85 | The fields become `Round.DiceAnimation`. |
| `Engine.Game.HandlePlayerMove` | Assets/Scripts/GameManager.cs:87-103 | The fields become `Round.HandlePlayerMove`. |
| `Engine.Game.ShowBuyPropertyUI` | Assets/Scripts/UIManager.cs:73-95 | The fields become `Purchase.ShowBuyPropertyUI`. |
| `Engine.Game.Pass` | Assets/Scripts/UIManager.cs:118-133 | The fields become `Purchase.Pass`, and the game invariant is kept. |
| `Engine.Game.BuyProperty` | Assets/Scripts/UIManager.cs:97-116 | The fields become `Purchase.BuyProperty`, and the game invariant is kept. |

## Left out

- Rendering is not modelled: piece transforms, `GetTileTransform`, the dice sprites and the overlap
  layout `AdjustPlayerOverlap` (Player.cs:88-111). Only the shared-tile query it relies on is modelled.
- Waiting is not modelled: the frame and second delays of the coroutines. Each coroutine runs to its
  end in one call. In the source, the first step of the relocation walk runs inside `GoToJail`, before
  the player is jailed and before the tail of `HandlePlayerMove`. The rest of the walk runs after that
  tail. The model jails the player first, runs the tail, then runs the whole walk. The difference cannot
  be observed: the step does not read the jail flag, and the tail reads only the six flag and the jail
  flag, neither of which the walk changes before its end.
- `Random.Range` and `Random.value` are parameters: the die face `face` in 0..5, and the Chance
  outcome `draw`.
- Chance fractions are exact rationals in [0.10, 0.31]. Float rounding of `Money * percent` before
  `Mathf.FloorToInt` is not modelled.
- Money and counters are unbounded integers. C# `int` overflow is not modelled; it is unreachable at
  these amounts.
- Debug and log text, `ShowPlayerInfo`, the panel's widgets and tile names are not modelled.
  `TileButton.cs` and `ShowPropertyDetails` are display only.
- The `OnTurnChanged` event is not modelled as a subscriber list: `turnLog` records the announced indices.
- A tile without a `Tile` component (Player.cs:117) and the `default` branch (Player.cs:216-218) are
  not modelled: every tile has one of the six kinds.
- The singleton setup (`Awake`), and `Pass`'s check that a game manager exists, are not modelled.
- Players are records in a sequence and are referred to by roster index, not as objects. The owned
  list holds tile indices, not tile objects, and `IsOwnedBy` takes the player's id.
- `Turns.Wf` asks that the jail index be a Jail tile. The source does not. If the jail index were a
  GoToJail tile, each relocation would start another one without end. A tile of any other kind would
  simply run its own effect at the end of the relocation. That case is not covered.
- `Purchase.BuyProperty` requires the buy panel to be open, because the tile and buyer it reads are
  only set when the panel opens.
- `Purchase.BuyProperty`: its own contract states only the closed panel and the structure. What the
  purchase does is stated by `Purchase.BuyAffordable`, `Purchase.BuyUnaffordable` and
  `Invariants.BuyKeepsInv`.
- `Engine.Game.MoveSteps` adds the pass-start bonus in the loop body, not through the `AdjustMoney`
  method. The effect is the same.

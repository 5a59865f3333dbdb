/** One press of the roll button: the throw, the movement, the landing tile's effect, the six rule
    applied after the movement, and the relocation to jail when one was started. */
module Round {
  import opened Wrappers
  import opened Tiles
  import opened Players
  import opened Turns
  import opened Purchase
  import opened Effects

  /** The throw: the roll is locked and the six flag records whether the die, which shows the drawn face
      index plus one, came up six. `face` is the random face index in 0..5. */
  function Thrown(s: State, face: int): (r: State)
    requires 0 <= face < 6
    ensures !r.canRoll && (r.rolledSix <==> face == 5)
    ensures r.players == s.players && r.path == s.path && r.jailIndex == s.jailIndex && r.current == s.current
    ensures r.offer == s.offer && r.panelOpen == s.panelOpen && r.turnLog == s.turnLog
  {
    var dieValue := face + 1;
    s.(canRoll := false, rolledSix := dieValue == 6)
  }

  /** What happens once the mover's movement (and the tile effect inside it) is over: a six rolled by a
      mover who is not in jail unlocks the roll; otherwise the six is used up. No player changes. */
  function AfterMove(s: State, p: nat): (r: State)
    requires p < |s.players|
    ensures r.players == s.players && r.path == s.path && r.jailIndex == s.jailIndex && r.current == s.current
    ensures r.offer == s.offer && r.panelOpen == s.panelOpen && r.turnLog == s.turnLog
    ensures r.rolledSix <==> s.rolledSix && !s.players[p].inJail
    ensures r.canRoll <==> s.canRoll || (s.rolledSix && !s.players[p].inJail)
  {
    if s.rolledSix && !s.players[p].inJail then s.(canRoll := true) else s.(rolledSix := false)
  }

  /** The mover walks `steps` tiles and the landing tile takes effect; then the six rule applies, and a
      relocation to jail started by the tile runs to its end. */
  function HandlePlayerMove(s: State, p: nat, steps: nat, draw: ChanceDraw): (r: State)
    requires Wf(s) && p < |s.players| && ValidDraw(draw)
    ensures Settled(s, r)
    ensures p == s.current && !s.players[p].inJail ==> !r.players[r.current].inJail
  {
    var moved := MoveSteps(s, p, steps);
    var landing := TileEffect(moved, p, draw);
    var after := AfterMove(landing.state, p);
    SettledTrans(s, moved, landing.state);
    SettledTrans(s, landing.state, after);
    match landing.jailWalk
    case None => after
    case Some(d) =>
      SettledTrans(s, after, MoveToJail(after, p, d, draw));
      MoveToJail(after, p, d, draw)
  }

  /** The animation's body: the throw, then the current player's move by the die value. */
  function DiceAnimation(s: State, face: int, draw: ChanceDraw): (r: State)
    requires Wf(s) && 0 <= face < 6 && ValidDraw(draw)
    ensures Settled(s, r)
    ensures !s.players[s.current].inJail ==> !r.players[r.current].inJail
  {
    var thrown := Thrown(s, face);
    HandlePlayerMove(thrown, thrown.current, face + 1, draw)
  }

  /** The roll button: it does something only while the roll is unlocked. */
  function RollDice(s: State, face: int, draw: ChanceDraw): (r: State)
    requires Wf(s) && 0 <= face < 6 && ValidDraw(draw)
    ensures Settled(s, r)
    ensures !s.canRoll ==> r == s
    ensures !s.players[s.current].inJail ==> !r.players[r.current].inJail
  {
    if s.canRoll then DiceAnimation(s, face, draw) else s
  }
}

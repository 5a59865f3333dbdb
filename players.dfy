/** A player's own state and the rules that touch one player at a time:
    money, movement around the path with the pass-start bonus, the jail
    counter, the distance to the jail tile and the Chance amounts. */
module Players {
  import Arith

  const StartingMoney: int := 1000
  /** Credited for every wrap to position 0 once the first move is done, and for landing on Start. */
  const PassStartBonus: int := 200
  /** The number of turns a player spends in jail. */
  const JailTerm: int := 3

  /** `stepsMoved` is the position on the path; `owned` lists the indices of the tiles bought. */
  datatype Player = Player(
    id: int,
    money: int,
    stepsMoved: int,
    inJail: bool,
    jailTurns: int,
    owned: seq<nat>,
    hasStarted: bool,
    laps: int)

  function NewPlayer(id: int): (pl: Player)
    ensures pl.id == id && pl.money == 1000 && pl.stepsMoved == 0
    ensures !pl.inJail && pl.jailTurns == 0 && pl.owned == []
    ensures !pl.hasStarted && pl.laps == 0
  {
    Player(id, StartingMoney, 0, false, 0, [], false, 0)
  }

  function AdjustMoney(pl: Player, amount: int): Player {
    pl.(money := pl.money + amount)
  }

  predicate CanAfford(pl: Player, amount: int) {
    pl.money >= amount
  }

  /** The jail flag and the counter agree: jailed exactly while 1..3 turns remain, 0 when free. */
  predicate JailOk(pl: Player) {
    (pl.inJail <==> 1 <= pl.jailTurns <= JailTerm) && (!pl.inJail ==> pl.jailTurns == 0)
  }

  /** What every player satisfies on a path of `pathLength` tiles. */
  predicate PlayerOk(pl: Player, pathLength: int) {
    0 <= pl.stepsMoved < pathLength && pl.id >= 0 && JailOk(pl)
  }

  /** The jail turns this player still has to serve. */
  function Served(pl: Player): nat {
    if pl.inJail && pl.jailTurns > 0 then pl.jailTurns else 0
  }

  function SendToJail(pl: Player): Player {
    pl.(inJail := true, jailTurns := JailTerm)
  }

  function DecreaseJailTurn(pl: Player): Player {
    var turns := pl.jailTurns - 1;
    if turns <= 0 then pl.(jailTurns := turns, inJail := false) else pl.(jailTurns := turns)
  }

  /** Entering jail always starts a full term, whatever the counter was. */
  lemma SendToJailStartsTerm(pl: Player)
    ensures SendToJail(pl).inJail && SendToJail(pl).jailTurns == 3 && JailOk(SendToJail(pl))
    ensures Served(SendToJail(pl)) == 3
    ensures SendToJail(pl) == pl.(inJail := true, jailTurns := 3)
  {
  }

  /** One served jail turn lowers the counter by exactly one, releases the player when it reaches 0,
      keeps jail flag and counter in agreement and lowers the turns left to serve by one. */
  lemma JailCountdown(pl: Player)
    requires JailOk(pl) && pl.inJail
    ensures DecreaseJailTurn(pl).jailTurns == pl.jailTurns - 1
    ensures DecreaseJailTurn(pl).inJail <==> pl.jailTurns > 1
    ensures JailOk(DecreaseJailTurn(pl))
    ensures Served(DecreaseJailTurn(pl)) == Served(pl) - 1
    ensures DecreaseJailTurn(pl) == pl.(inJail := DecreaseJailTurn(pl).inJail, jailTurns := pl.jailTurns - 1)
  {
  }

  // ---------------------------------------------------------------- movement

  /** One iteration of the movement loop: advance one tile, wrapping at the end of the path; once the
      player has started, a step whose successor index is not larger pays the bonus and counts a lap. */
  function Step(pl: Player, pathLength: int): Player
    requires pathLength >= 1
  {
    var previousStep := pl.stepsMoved;
    var next := (pl.stepsMoved + 1) % pathLength;
    if pl.hasStarted && previousStep + 1 > next then
      pl.(stepsMoved := next, laps := pl.laps + 1, money := pl.money + PassStartBonus)
    else
      pl.(stepsMoved := next)
  }

  /** `steps` iterations of the movement loop. */
  function Walk(pl: Player, steps: nat, pathLength: int): Player
    requires pathLength >= 1
  {
    if steps == 0 then pl else Step(Walk(pl, steps - 1, pathLength), pathLength)
  }

  /** A single step credits the bonus exactly when it lands on position 0, and only once started. */
  lemma StepCreditsOnWrap(pl: Player, pathLength: int)
    requires 0 <= pl.stepsMoved < pathLength
    ensures Step(pl, pathLength).stepsMoved == (pl.stepsMoved + 1) % pathLength
    ensures var wrapped := Step(pl, pathLength).stepsMoved == 0;
      && Step(pl, pathLength).money == pl.money + (if pl.hasStarted && wrapped then 200 else 0)
      && Step(pl, pathLength).laps == pl.laps + (if pl.hasStarted && wrapped then 1 else 0)
    ensures Step(pl, pathLength).(money := pl.money, laps := pl.laps, stepsMoved := pl.stepsMoved) == pl
  {
    if pl.stepsMoved + 1 < pathLength {
      Arith.ModSmall(pl.stepsMoved + 1, pathLength);
    } else {
      Arith.DivModUnique(pl.stepsMoved + 1, pathLength, 1, 0);
    }
  }

  /** After `steps` iterations from a position on the path the player stands at
      (start + steps) mod L and, if already started, has been paid 200 and a lap for each
      of the (start + steps) div L wraps; nothing else changes. */
  lemma {:induction false} WalkClosedForm(pl: Player, steps: nat, pathLength: int)
    requires 0 <= pl.stepsMoved < pathLength
    ensures var wraps := (pl.stepsMoved + steps) / pathLength;
      Walk(pl, steps, pathLength) == pl.(
        stepsMoved := (pl.stepsMoved + steps) % pathLength,
        money := pl.money + (if pl.hasStarted then PassStartBonus * wraps else 0),
        laps := pl.laps + (if pl.hasStarted then wraps else 0))
  {
    if steps == 0 {
      Arith.ModSmall(pl.stepsMoved, pathLength);
    } else {
      WalkClosedForm(pl, steps - 1, pathLength);
      var before := Walk(pl, steps - 1, pathLength);
      var a := pl.stepsMoved + steps - 1;
      var q, m := a / pathLength, a % pathLength;
      var q', m' := (a + 1) / pathLength, (a + 1) % pathLength;
      assert m' == (if m + 1 == pathLength then 0 else m + 1) && q' == q + (if m + 1 == pathLength then 1 else 0) by {
        Arith.ModStep(a, pathLength);
      }
      assert before.stepsMoved == m;
      StepCreditsOnWrap(before, pathLength);
      assert Step(before, pathLength).stepsMoved == m' by {
        if m + 1 < pathLength {
          Arith.ModSmall(m + 1, pathLength);
        } else {
          Arith.DivModUnique(m + 1, pathLength, 1, 0);
        }
      }
    }
  }

  /** The whole movement: the loop, then `hasStarted` is set. Its closed form is the loop's meaning. */
  function Moved(pl: Player, steps: nat, pathLength: int): (r: Player)
    requires 0 <= pl.stepsMoved < pathLength
    ensures var wraps := (pl.stepsMoved + steps) / pathLength;
      r == pl.(
        stepsMoved := (pl.stepsMoved + steps) % pathLength,
        money := pl.money + (if pl.hasStarted then PassStartBonus * wraps else 0),
        laps := pl.laps + (if pl.hasStarted then wraps else 0),
        hasStarted := true)
    ensures 0 <= r.stepsMoved < pathLength
  {
    WalkClosedForm(pl, steps, pathLength);
    Walk(pl, steps, pathLength).(hasStarted := true)
  }

  /** The first movement of a player never pays the bonus, however far it goes. */
  lemma FirstMoveNeverPays(pl: Player, steps: nat, pathLength: int)
    requires 0 <= pl.stepsMoved < pathLength && !pl.hasStarted
    ensures Moved(pl, steps, pathLength).money == pl.money
    ensures Moved(pl, steps, pathLength).laps == pl.laps
    ensures Moved(pl, steps, pathLength).hasStarted
  {
  }

  /** Forward distance from `pos` to the jail tile, as the jail relocation computes it. */
  function JailDistance(jailIndex: int, pos: int, pathLength: int): int
    requires pathLength >= 1
  {
    (jailIndex - pos + pathLength) % pathLength
  }

  /** The jail distance lies in [0, L) and walking it from `pos` ends exactly on the jail tile. */
  lemma JailDistanceReachesJail(jailIndex: int, pos: int, pathLength: int)
    requires 0 <= jailIndex < pathLength && 0 <= pos < pathLength
    ensures 0 <= JailDistance(jailIndex, pos, pathLength) < pathLength
    ensures (pos + JailDistance(jailIndex, pos, pathLength)) % pathLength == jailIndex
  {
    var d := JailDistance(jailIndex, pos, pathLength);
    if jailIndex >= pos {
      Arith.DivModUnique(jailIndex - pos + pathLength, pathLength, 1, jailIndex - pos);
      Arith.ModSmall(jailIndex, pathLength);
    } else {
      Arith.ModSmall(jailIndex - pos + pathLength, pathLength);
      Arith.DivModUnique(jailIndex + pathLength, pathLength, 1, jailIndex);
    }
  }

  // ---------------------------------------------------------------- Chance

  /** The Chance outcome, drawn by the caller: lose the fraction num/den of the money (the source
      samples it in [0.10, 0.31]) or gain half of it. */
  datatype ChanceDraw = Lose(num: nat, den: nat) | Gain

  predicate ValidDraw(d: ChanceDraw) {
    d.Lose? ==> d.den > 0 && 10 * d.den <= 100 * d.num <= 31 * d.den
  }

  /** The change of money a Chance tile makes: minus the floor of money times the fraction, or plus the
      floor of half the money. */
  function ChanceDelta(money: int, d: ChanceDraw): int
    requires ValidDraw(d)
  {
    match d
    case Lose(num, den) => -((money * num) / den)
    case Gain => money / 2
  }

  /** A loss is the floor of money times the fraction; for a solvent player it is at most 31% of the
      money (so the balance stays non-negative) and at least the floor of 10% of it; a gain is the floor
      of half the money. */
  lemma ChanceBounds(money: int, d: ChanceDraw)
    requires ValidDraw(d)
    ensures d.Lose? ==> d.den * -ChanceDelta(money, d) <= money * d.num < d.den * (-ChanceDelta(money, d) + 1)
    ensures d.Lose? && money >= 0 ==>
      100 * -ChanceDelta(money, d) <= 31 * money && money < 10 * (-ChanceDelta(money, d) + 1)
    ensures d.Lose? && money >= 0 ==> money + ChanceDelta(money, d) >= 0
    ensures d.Gain? ==> 2 * ChanceDelta(money, d) <= money < 2 * ChanceDelta(money, d) + 2
  {
    if d.Lose? {
      var loss := (money * d.num) / d.den;
      Arith.FloorBounds(money * d.num, d.den);
      if money >= 0 {
        LossAtMostThirtyOne(money, d.num, d.den, loss);
        LossAtLeastTen(money, d.num, d.den, loss);
      }
    }
  }

  lemma LossAtMostThirtyOne(money: int, num: int, den: int, loss: int)
    requires money >= 0 && den > 0 && 100 * num <= 31 * den && den * loss <= money * num
    ensures 100 * loss <= 31 * money
  {
    assert money * (100 * num) <= money * (31 * den) by { Arith.MulLe(money, 100 * num, 31 * den); }
    assert den * (100 * loss) <= den * (31 * money);
    if 100 * loss > 31 * money {
      Arith.MulLt(den, 31 * money, 100 * loss);
    }
  }

  lemma LossAtLeastTen(money: int, num: int, den: int, loss: int)
    requires money >= 0 && den > 0 && 10 * den <= 100 * num && money * num < den * (loss + 1)
    ensures money < 10 * (loss + 1)
  {
    assert money * (10 * den) <= money * (100 * num) by { Arith.MulLe(money, 10 * den, 100 * num); }
    assert den * (10 * money) < den * (100 * (loss + 1));
    if 10 * money >= 100 * (loss + 1) {
      Arith.MulLe(den, 100 * (loss + 1), 10 * money);
    }
  }

  /** Example: 1000 money and a 20% loss leave 800. */
  lemma ChanceLossExample()
    ensures 1000 + ChanceDelta(1000, Lose(20, 100)) == 800
  {
  }
}

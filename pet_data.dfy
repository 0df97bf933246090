/**
 * The state of the Tamagotchi component: its twelve state fields, their
 * defaults, and the clamped meter arithmetic every mutator goes through.
 */
module PetData {

  /** The five wellbeing meters. */
  datatype Meter = Hunger | Happiness | Health | Hygiene | Energy

  /** Outcome of the last fight; the component keeps a display string instead. */
  datatype BattleResult = NoBattle | Won(earned: int) | Lost

  /**
   * Meters and the decay rate are JavaScript numbers that can be fractional
   * (the fight loss is not floored, the rate grows by 0.5), so they are reals.
   */
  datatype PetState = PetState(
    hunger: real,
    happiness: real,
    health: real,
    hygiene: real,
    energy: real,
    level: int,
    levelProgress: int,
    decayRate: real,
    coins: int,
    isCritical: bool,
    gameOver: bool,
    battleResult: BattleResult)

  /** The values the component starts with and `restartGame` reinstates. */
  const Initial: PetState :=
    PetState(50.0, 50.0, 100.0, 50.0, 50.0, 1, 0, 1.0, 0, false, false, NoBattle)

  function Get(s: PetState, m: Meter): real {
    match m
    case Hunger => s.hunger
    case Happiness => s.happiness
    case Health => s.health
    case Hygiene => s.hygiene
    case Energy => s.energy
  }

  function Set(s: PetState, m: Meter, v: real): (r: PetState)
    ensures Get(r, m) == v
    ensures forall n :: n != m ==> Get(r, n) == Get(s, n)
    ensures OnlyMetersDiffer(s, r)
  {
    match m
    case Hunger => s.(hunger := v)
    case Happiness => s.(happiness := v)
    case Health => s.(health := v)
    case Hygiene => s.(hygiene := v)
    case Energy => s.(energy := v)
  }

  /** `r` agrees with `s` on every field but the five meters. */
  predicate OnlyMetersDiffer(s: PetState, r: PetState) {
    r == s.(hunger := r.hunger, happiness := r.happiness, health := r.health,
            hygiene := r.hygiene, energy := r.energy)
  }

  predicate IsWhole(x: real) {
    x.Floor as real == x
  }

  predicate MeterOk(x: real) {
    0.0 <= x <= 100.0
  }

  predicate InRange(s: PetState) {
    MeterOk(s.hunger) && MeterOk(s.happiness) && MeterOk(s.health)
    && MeterOk(s.hygiene) && MeterOk(s.energy)
  }

  /** All five meters above 20: the condition under which the level advances. */
  predicate Thriving(s: PetState) {
    s.hunger > 20.0 && s.happiness > 20.0 && s.health > 20.0
    && s.hygiene > 20.0 && s.energy > 20.0
  }

  /** Some meter has reached exactly 0: the condition that ends the game. */
  predicate AnyEmpty(s: PetState) {
    s.hunger == 0.0 || s.happiness == 0.0 || s.health == 0.0
    || s.hygiene == 0.0 || s.energy == 0.0
  }

  /** What every operation keeps, starting from `Initial`. */
  predicate Inv(s: PetState) {
    && InRange(s)
    && s.level >= 1
    && 0 <= s.levelProgress <= 100
    && s.decayRate >= 1.0
    && s.coins >= 0
    && (s.isCritical ==> s.gameOver)
  }

  /**
   * A care increment: `min(floor(m + k), 100)`. The result is the largest
   * whole number that exceeds neither `m + k` nor 100.
   */
  function RaiseMeter(m: real, k: real): (r: real)
    ensures IsWhole(r)
    ensures r <= 100.0 && r <= m + k
    ensures r == 100.0 || m + k < r + 1.0
    ensures MeterOk(m) && k >= 1.0 ==> m <= r && MeterOk(r)
  {
    var f := (m + k).Floor as real;
    if f < 100.0 then f else 100.0
  }

  /**
   * A decrement: `max(floor(m - k), 0)`. The result is the largest whole
   * number not above `m - k`, or 0 when that would be negative.
   */
  function LowerMeter(m: real, k: real): (r: real)
    ensures IsWhole(r)
    ensures r >= 0.0
    ensures r > 0.0 ==> r <= m - k < r + 1.0
    ensures r == 0.0 ==> m - k < 1.0
    ensures MeterOk(m) && k >= 0.0 ==> r <= m && MeterOk(r)
    ensures m > 0.0 && k >= 1.0 ==> r < m
  {
    var f := (m - k).Floor as real;
    if f > 0.0 then f else 0.0
  }
}

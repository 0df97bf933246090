/**
 * The component over time: any interleaving of handler calls, timer ticks,
 * critical checks and loads, and what holds of every such run.
 */
module Lifecycle {
  import opened Wrappers
  import opened PetData
  import Actions
  import Ticks
  import Persistence
  import Display

  datatype Event =
    | Feed | Play | Sleep | Clean
    | Fight(won: bool, amount: int)
    | Buy(item: Actions.Item)
    | Restart
    | DecayTick | LevelTick | CriticalCheck
    | Load(slot: Option<Persistence.SavedRecord>)

  /** The fight reward lies in the range the random draw produces. */
  predicate WellFormed(e: Event) {
    e.Fight? ==> 3000 <= e.amount <= 10000
  }

  /** Events that keep `Inv`: non-negative prices and in-range saves. */
  predicate Safe(e: Event) {
    && (e.Buy? ==> e.item.cost >= 0)
    && (e.Load? && e.slot.Some? ==> Persistence.ValidRecord(e.slot.value))
  }

  /** Events that do nothing once the game is over. */
  predicate Gated(e: Event) {
    e.Feed? || e.Play? || e.Sleep? || e.Clean? || e.Fight? || e.DecayTick? || e.CriticalCheck?
  }

  /** The decay rate as a function of the level, while no save has been loaded. */
  predicate RateMatchesLevel(s: PetState) {
    s.decayRate == 1.0 + 0.5 * (s.level - 1) as real
  }

  /** One event applied to the state. */
  function Apply(s: PetState, e: Event): (r: PetState)
    requires WellFormed(e)
    ensures Safe(e) && Inv(s) ==> Inv(r)
    ensures !e.Restart? && s.gameOver ==> r.gameOver
    ensures Gated(e) && s.gameOver ==> r == s
    ensures !e.Restart? && !e.Load? ==>
      s.level <= r.level && r.decayRate - s.decayRate == 0.5 * (r.level - s.level) as real
  {
    match e
    case Feed => Actions.Feed(s)
    case Play => Actions.Play(s)
    case Sleep => Actions.Sleep(s)
    case Clean => Actions.Clean(s)
    case Fight(won, amount) => Actions.Fight(s, won, amount)
    case Buy(item) => Actions.Buy(s, item)
    case Restart => Initial
    case DecayTick => Ticks.Decay(s)
    case LevelTick => Ticks.LevelTick(s)
    case CriticalCheck => Ticks.CriticalCheck(s)
    case Load(slot) => Persistence.Load(s, slot)
  }

  /** A sequence of events applied in order. */
  function Run(s: PetState, evs: seq<Event>): PetState
    requires forall e <- evs :: WellFormed(e)
    decreases |evs|
  {
    if evs == [] then s else Run(Apply(s, evs[0]), evs[1..])
  }

  /** Every run of safe events from a state keeping `Inv` keeps it. */
  lemma {:induction false} RunKeepsInv(s: PetState, evs: seq<Event>)
    requires forall e <- evs :: WellFormed(e) && Safe(e)
    requires Inv(s)
    ensures Inv(Run(s, evs))
    decreases |evs|
  {
    if evs != [] {
      RunKeepsInv(Apply(s, evs[0]), evs[1..]);
    }
  }

  /**
   * From the defaults, every run of safe events keeps meters and progress in
   * range, coins non-negative and `isCritical ==> gameOver`; so the alert
   * status text is never shown.
   */
  lemma FreshRunsKeepInv(evs: seq<Event>)
    requires forall e <- evs :: WellFormed(e) && Safe(e)
    ensures Inv(Run(Initial, evs))
    ensures Display.StatusMessage(Run(Initial, evs)) != Display.AlertText
  {
    RunKeepsInv(Initial, evs);
    Display.AlertNeverShown(Run(Initial, evs));
  }

  /** Game over is left only through a restart. */
  lemma {:induction false} GameOverSticky(s: PetState, evs: seq<Event>)
    requires forall e <- evs :: WellFormed(e) && !e.Restart?
    requires s.gameOver
    ensures Run(s, evs).gameOver
    decreases |evs|
  {
    if evs != [] {
      GameOverSticky(Apply(s, evs[0]), evs[1..]);
    }
  }

  /** Once the game is over, care actions, fights, decay and checks change nothing. */
  lemma {:induction false} GameOverFreezes(s: PetState, evs: seq<Event>)
    requires forall e <- evs :: WellFormed(e) && Gated(e)
    requires s.gameOver
    ensures Run(s, evs) == s
    decreases |evs|
  {
    if evs != [] {
      GameOverFreezes(Apply(s, evs[0]), evs[1..]);
    }
  }

  /**
   * Without a restart or a load, the level never drops and the decay rate
   * grows by exactly 0.5 per level gained.
   */
  lemma {:induction false} RateFollowsLevel(s: PetState, evs: seq<Event>)
    requires forall e <- evs :: WellFormed(e) && !e.Restart? && !e.Load?
    ensures s.level <= Run(s, evs).level
    ensures Run(s, evs).decayRate - s.decayRate == 0.5 * (Run(s, evs).level - s.level) as real
    decreases |evs|
  {
    if evs != [] {
      RateFollowsLevel(Apply(s, evs[0]), evs[1..]);
    }
  }

  /**
   * Without a load, the decay rate is `1 + 0.5 * (level - 1)` in every state
   * reached from the defaults (restarts included), so it is at least 1.
   */
  lemma {:induction false} RateMatchesLevelKept(s: PetState, evs: seq<Event>)
    requires forall e <- evs :: WellFormed(e) && !e.Load?
    requires RateMatchesLevel(s)
    ensures RateMatchesLevel(Run(s, evs))
    decreases |evs|
  {
    if evs != [] {
      RateMatchesLevelKept(Apply(s, evs[0]), evs[1..]);
    }
  }

  /** Decay followed by the critical check, as the component runs them. */
  function DecayCycle(s: PetState): PetState {
    Ticks.CriticalCheck(Ticks.Decay(s))
  }

  function DecayCycles(s: PetState, n: nat): PetState
    decreases n
  {
    if n == 0 then s else DecayCycles(DecayCycle(s), n - 1)
  }

  /**
   * Neglect ends the game: with a decay rate of at least 1, a meter at most
   * `n` (for `n >= 1`) reaches 0 and triggers game over within `n` cycles.
   */
  lemma {:induction false} NeglectEndsGame(s: PetState, m: Meter, n: nat)
    requires s.decayRate >= 1.0
    requires s.gameOver || (n >= 1 && Get(s, m) <= n as real)
    ensures DecayCycles(s, n).gameOver
    decreases n
  {
    if n > 0 {
      var t := DecayCycle(s);
      var d := Ticks.Decay(s);
      assert !s.gameOver ==> Ticks.Drained(Get(s, m), Get(d, m));
      assert Get(t, m) == Get(d, m);
      NeglectEndsGame(t, m, n - 1);
    }
  }

  /** `n` level ticks. */
  function LevelTicks(s: PetState, n: nat): PetState {
    if n == 0 then s else Ticks.LevelTick(LevelTicks(s, n - 1))
  }

  /** While every meter stays above 20, each tick adds one to the progress. */
  lemma {:induction false} ProgressClimbs(s: PetState, k: nat)
    requires Thriving(s)
    requires 0 <= s.levelProgress && s.levelProgress + k <= 100
    ensures LevelTicks(s, k) == s.(levelProgress := s.levelProgress + k)
  {
    if k > 0 {
      ProgressClimbs(s, k - 1);
    }
  }

  /**
   * From progress `p`, a thriving pet levels up on tick `n = 101 - p`: progress
   * reaches 100 first, and the following tick converts it into a level.
   */
  lemma LevelUpAfter(s: PetState, n: nat)
    requires Thriving(s)
    requires 0 <= s.levelProgress <= 100 && n == 101 - s.levelProgress
    ensures LevelTicks(s, n)
      == s.(level := s.level + 1, decayRate := s.decayRate + 0.5, levelProgress := 0)
  {
    ProgressClimbs(s, n - 1);
    var full := s.(levelProgress := 100);
    assert LevelTicks(s, n) == Ticks.LevelTick(full);
  }

}

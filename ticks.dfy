/**
 * The three effects the component runs on timers or after each change:
 * meter decay, level progression and the critical check. Each is one
 * atomic step that the caller invokes.
 */
module Ticks {
  import opened PetData

  /** What decay does to one meter when the rate is at least 1. */
  predicate Drained(before: real, after: real) {
    && (before > 0.0 ==> after < before)
    && (before <= 0.0 ==> after == 0.0)
  }

  /** The decay tick: every meter loses `decayRate`, floored, never below 0. */
  function Decay(s: PetState): (r: PetState)
    ensures s.gameOver ==> r == s
    ensures OnlyMetersDiffer(s, r)
    ensures !s.gameOver ==> forall m :: Get(r, m) == LowerMeter(Get(s, m), s.decayRate)
    ensures !s.gameOver ==> forall m :: IsWhole(Get(r, m)) && Get(r, m) >= 0.0
    ensures !s.gameOver && s.decayRate >= 1.0 ==>
      forall m :: Drained(Get(s, m), Get(r, m))
    ensures Inv(s) ==> Inv(r)
  {
    if s.gameOver then s
    else s.(hunger := LowerMeter(s.hunger, s.decayRate),
            happiness := LowerMeter(s.happiness, s.decayRate),
            health := LowerMeter(s.health, s.decayRate),
            hygiene := LowerMeter(s.hygiene, s.decayRate),
            energy := LowerMeter(s.energy, s.decayRate))
  }

  /**
   * The level tick: while every meter is above 20, progress climbs by one;
   * once it is at least 100 the next tick levels up instead, adding 0.5 to
   * the decay rate and resetting progress. Not gated on game over.
   */
  function LevelTick(s: PetState): (r: PetState)
    ensures !Thriving(s) ==> r == s
    ensures r == s.(level := r.level, levelProgress := r.levelProgress, decayRate := r.decayRate)
    ensures r.level == s.level + 1 <==> Thriving(s) && s.levelProgress >= 100
    ensures r.level == s.level || r.level == s.level + 1
    ensures r.decayRate == s.decayRate + 0.5 * (r.level - s.level) as real
    ensures r.level > s.level ==> r.levelProgress == 0
    ensures Thriving(s) && s.levelProgress < 100 ==> r.levelProgress == s.levelProgress + 1
    ensures Inv(s) ==> Inv(r)
  {
    if !Thriving(s) then s
    else if s.levelProgress >= 100 then
      s.(level := s.level + 1, decayRate := s.decayRate + 0.5, levelProgress := 0)
    else
      s.(levelProgress := s.levelProgress + 1)
  }

  /**
   * The critical check: once the game is over it does nothing; otherwise a
   * meter at 0 sets `isCritical` and `gameOver` together, and no meter at 0
   * clears `isCritical`.
   */
  function CriticalCheck(s: PetState): (r: PetState)
    ensures s.gameOver ==> r == s
    ensures r == s.(isCritical := r.isCritical, gameOver := r.gameOver)
    ensures r.gameOver <==> s.gameOver || AnyEmpty(s)
    ensures !s.gameOver ==> (r.isCritical <==> AnyEmpty(s))
    ensures !r.gameOver ==> !r.isCritical && !AnyEmpty(r)
    ensures (s.isCritical ==> s.gameOver) ==> (r.isCritical ==> r.gameOver)
    ensures Inv(s) ==> Inv(r)
  {
    if s.gameOver then s
    else if AnyEmpty(s) then s.(isCritical := true, gameOver := true)
    else s.(isCritical := false)
  }
}

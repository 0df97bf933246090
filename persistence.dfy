/**
 * Saving and loading the component's state. The storage slot holds at most
 * one record of nine fields; `isCritical`, `gameOver` and `battleResult` are
 * never saved. Loading copies the fields without validating them.
 */
module Persistence {
  import opened Wrappers
  import opened PetData

  /** The saved record; `coins` may be missing from older saves. */
  datatype SavedRecord = SavedRecord(
    hunger: real,
    happiness: real,
    health: real,
    hygiene: real,
    energy: real,
    level: int,
    levelProgress: int,
    decayRate: real,
    coins: Option<int>)

  /** A record whose values keep `Inv` when loaded. */
  predicate ValidRecord(rec: SavedRecord) {
    && MeterOk(rec.hunger) && MeterOk(rec.happiness) && MeterOk(rec.health)
    && MeterOk(rec.hygiene) && MeterOk(rec.energy)
    && rec.level >= 1
    && 0 <= rec.levelProgress <= 100
    && rec.decayRate >= 1.0
    && rec.coins.GetOr(0) >= 0
  }

  /** Loading a slot: an empty slot changes nothing; a missing `coins` reads as 0. */
  function Load(s: PetState, slot: Option<SavedRecord>): (r: PetState)
    ensures slot.None? ==> r == s
    ensures r.isCritical == s.isCritical && r.gameOver == s.gameOver
    ensures r.battleResult == s.battleResult
    ensures slot.Some? && slot.value.coins.None? ==> r.coins == 0
    ensures Inv(s) && (slot.Some? ==> ValidRecord(slot.value)) ==> Inv(r)
  {
    match slot
    case None => s
    case Some(rec) =>
      s.(hunger := rec.hunger, happiness := rec.happiness, health := rec.health,
         hygiene := rec.hygiene, energy := rec.energy, level := rec.level,
         levelProgress := rec.levelProgress, decayRate := rec.decayRate,
         coins := rec.coins.GetOr(0))
  }

  /**
   * Saving: the record built from the current state. Loading it into any
   * state restores the nine saved fields and keeps that state's flags and
   * battle result.
   */
  function Snapshot(s: PetState): (rec: SavedRecord)
    ensures rec.coins.Some?
    ensures forall t :: Load(t, Some(rec)) == s.(isCritical := t.isCritical,
                                                 gameOver := t.gameOver,
                                                 battleResult := t.battleResult)
    ensures Inv(s) ==> ValidRecord(rec)
  {
    SavedRecord(s.hunger, s.happiness, s.health, s.hygiene, s.energy,
                s.level, s.levelProgress, s.decayRate, Some(s.coins))
  }

  /** Saving what was just loaded gives back the record, with a missing `coins` as 0. */
  lemma LoadThenSave(t: PetState, rec: SavedRecord)
    ensures Snapshot(Load(t, Some(rec))) == rec.(coins := Some(rec.coins.GetOr(0)))
  {
  }
}

/**
 * The component itself: twelve state fields that its handlers and effects
 * update in place. Each method performs the handler's setter calls in order
 * and is proved to produce the transition the pure modules define.
 */
module Tamagotchi {
  import opened Wrappers
  import opened PetData
  import Actions
  import Ticks
  import Persistence

  class Pet {
    var hunger: real
    var happiness: real
    var health: real
    var hygiene: real
    var energy: real
    var level: int
    var levelProgress: int
    var decayRate: real
    var coins: int
    var isCritical: bool
    var gameOver: bool
    var battleResult: BattleResult

    /** The current values of the twelve fields. */
    function State(): PetState
      reads this
    {
      PetState(hunger, happiness, health, hygiene, energy, level, levelProgress,
               decayRate, coins, isCritical, gameOver, battleResult)
    }

    /** A fresh component holds the defaults. */
    constructor ()
      ensures State() == Initial && Inv(State())
    {
      hunger, happiness, health, hygiene, energy := 50.0, 50.0, 100.0, 50.0, 50.0;
      level, levelProgress, decayRate, coins := 1, 0, 1.0, 0;
      isCritical, gameOver, battleResult := false, false, NoBattle;
    }

    /** Startup load from the save slot; an empty slot leaves the state alone. */
    method LoadState(slot: Option<Persistence.SavedRecord>)
      modifies this
      ensures State() == Persistence.Load(old(State()), slot)
      ensures Inv(old(State())) && (slot.Some? ==> Persistence.ValidRecord(slot.value)) ==> Inv(State())
    {
      if slot.Some? {
        var rec := slot.value;
        hunger := rec.hunger;
        happiness := rec.happiness;
        health := rec.health;
        hygiene := rec.hygiene;
        energy := rec.energy;
        level := rec.level;
        levelProgress := rec.levelProgress;
        decayRate := rec.decayRate;
        coins := if rec.coins.Some? then rec.coins.value else 0;
      }
    }

    /** The decay timer's callback; suspended once the game is over. */
    method DecayTick()
      modifies this
      ensures State() == Ticks.Decay(old(State()))
      ensures Inv(old(State())) ==> Inv(State())
    {
      if gameOver { return; }
      hunger := LowerMeter(hunger, decayRate);
      happiness := LowerMeter(happiness, decayRate);
      health := LowerMeter(health, decayRate);
      hygiene := LowerMeter(hygiene, decayRate);
      energy := LowerMeter(energy, decayRate);
    }

    /** The level timer's callback. */
    method LevelTick()
      modifies this
      ensures State() == Ticks.LevelTick(old(State()))
      ensures Inv(old(State())) ==> Inv(State())
    {
      if hunger > 20.0 && happiness > 20.0 && health > 20.0 && hygiene > 20.0 && energy > 20.0 {
        if levelProgress >= 100 {
          level := level + 1;
          decayRate := decayRate + 0.5;
          levelProgress := 0;
        } else {
          levelProgress := levelProgress + 1;
        }
      }
    }

    /** The effect that re-evaluates the critical and game-over flags. */
    method CriticalCheck()
      modifies this
      ensures State() == Ticks.CriticalCheck(old(State()))
      ensures Inv(old(State())) ==> Inv(State())
      ensures !gameOver ==> !isCritical && !AnyEmpty(State())
    {
      if gameOver { return; }
      if hunger == 0.0 || happiness == 0.0 || health == 0.0 || hygiene == 0.0 || energy == 0.0 {
        isCritical := true;
        gameOver := true;
      } else {
        isCritical := false;
      }
    }

    method Feed()
      modifies this
      ensures State() == Actions.Feed(old(State()))
      ensures Inv(old(State())) ==> Inv(State())
    {
      if gameOver { return; }
      hunger := RaiseMeter(hunger, 20.0);
      health := RaiseMeter(health, 5.0);
      energy := LowerMeter(energy, 5.0);
    }

    method Play()
      modifies this
      ensures State() == Actions.Play(old(State()))
      ensures Inv(old(State())) ==> Inv(State())
    {
      if gameOver { return; }
      happiness := RaiseMeter(happiness, 20.0);
      hunger := LowerMeter(hunger, 5.0);
      health := LowerMeter(health, 5.0);
      energy := LowerMeter(energy, 10.0);
    }

    method Sleep()
      modifies this
      ensures State() == Actions.Sleep(old(State()))
      ensures Inv(old(State())) ==> Inv(State())
    {
      if gameOver { return; }
      health := RaiseMeter(health, 10.0);
      happiness := LowerMeter(happiness, 5.0);
      energy := RaiseMeter(energy, 20.0);
    }

    method Clean()
      modifies this
      ensures State() == Actions.Clean(old(State()))
      ensures Inv(old(State())) ==> Inv(State())
    {
      if gameOver { return; }
      hygiene := RaiseMeter(hygiene, 20.0);
      energy := LowerMeter(energy, 5.0);
    }

    /** `restartGame`: every field back to its default, whatever the state. */
    method Restart()
      modifies this
      ensures State() == Initial && Inv(State())
    {
      hunger := 50.0;
      happiness := 50.0;
      health := 100.0;
      hygiene := 50.0;
      energy := 50.0;
      level := 1;
      levelProgress := 0;
      decayRate := 1.0;
      coins := 0;
      isCritical := false;
      gameOver := false;
      battleResult := NoBattle;
    }

    /** `fight`, given the outcome of the coin toss and the drawn reward. */
    method Fight(won: bool, amount: int)
      requires 3000 <= amount <= 10000
      modifies this
      ensures State() == Actions.Fight(old(State()), won, amount)
      ensures Inv(old(State())) ==> Inv(State())
    {
      if gameOver { return; }
      if won {
        coins := coins + amount;
        battleResult := Won(amount);
      } else {
        health := Actions.FightLossHealth(health);
        battleResult := Lost;
      }
    }

    /** `buyItem`; `ok` is false where the component shows its alert. */
    method BuyItem(item: Actions.Item) returns (ok: bool)
      modifies this
      ensures ok == Actions.CanAfford(old(State()), item)
      ensures State() == Actions.Buy(old(State()), item)
      ensures Inv(old(State())) && item.cost >= 0 ==> Inv(State())
    {
      if coins < item.cost {
        return false;
      }
      ok := true;
      coins := coins - item.cost;
      if item.kind == "hunger" {
        hunger := RaiseMeter(hunger, 30.0);
      } else if item.kind == "happiness" {
        happiness := RaiseMeter(happiness, 30.0);
      } else if item.kind == "hygiene" {
        hygiene := RaiseMeter(hygiene, 30.0);
      } else if item.kind == "energy" {
        energy := RaiseMeter(energy, 30.0);
      }
    }
  }
}

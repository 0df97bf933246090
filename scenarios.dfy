/** Concrete runs of the component from its defaults. */
module Scenarios {
  import opened PetData
  import Actions
  import Lifecycle

  /** Feeding a fresh pet: hunger 70, health capped at 100, energy 45. */
  lemma FeedFromDefaults()
    ensures Actions.Feed(Initial) == Initial.(hunger := 70.0, energy := 45.0)
  {
  }

  /** A purchase the pet cannot afford reports failure and changes nothing. */
  lemma PurchaseRefused(s: PetState)
    requires s.coins == 300
    ensures !Actions.CanAfford(s, Actions.Item("energy", 500))
    ensures Actions.Buy(s, Actions.Item("energy", 500)) == s
  {
  }

  /** Restarting from any state, a finished game included, gives the defaults. */
  lemma RestartFromAnyState(s: PetState)
    ensures Lifecycle.Run(s, [Lifecycle.Restart]) == Initial
  {
  }

  /** A fresh pet left alone dies within 50 decay cycles (hunger starts at 50). */
  lemma NeglectFromDefaults()
    ensures Lifecycle.DecayCycles(Initial, 50).gameOver
  {
    Lifecycle.NeglectEndsGame(Initial, Hunger, 50);
  }

  /**
   * The level tick is not gated on game over: a pet that starved, then was
   * fed from the shop, keeps gaining level progress although the game is over.
   */
  lemma ProgressAfterGameOver()
    ensures var s := Initial.(hunger := 0.0, coins := 500);
      var r := Lifecycle.Run(s, [Lifecycle.CriticalCheck,
                                 Lifecycle.Buy(Actions.Item("hunger", 500)),
                                 Lifecycle.LevelTick]);
      r.gameOver && r.hunger == 30.0 && r.coins == 0 && r.levelProgress == 1
  {
  }
}

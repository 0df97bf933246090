# Tamagotchi state machine in Dafny

This project models the virtual-pet component `Tamagotchi` of the M12-Tama
web application (`src/components/Tamagotchi.jsx`). The pet has five wellbeing
meters: hunger, happiness, health, hygiene and energy. It also has a level, a
level-progress counter, a decay rate, a coin purse, the `isCritical` and
`gameOver` flags, and the result of the last fight.

The model has two layers:

- Pure transitions on a `PetState` value:
  - modules `Actions` (`feed`, `play`, `sleep`, `clean`, `fight`, `buyItem`)
    and `Ticks` (decay, level progression, critical check);
  - module `Persistence` (the nine-field save record, and loading it);
  - module `Display` (`getProgressColor`, `getStatusMessage`);
  - module `PetData` (the state, its defaults and the clamped meter arithmetic
    `min(floor(m + k), 100)` and `max(floor(m - k), 0)`).
- The component as a class, `Tamagotchi.Pet`. It has the twelve state fields.
  Each handler and each timer callback is a method that updates those fields
  in the order the component's setters do. Every method is proved to produce
  exactly the pure transition, and to keep the state invariant.

Module `Lifecycle` treats any interleaving of handlers, ticks, checks and loads
as a sequence of events. It proves what holds over every run:

- The invariant `Inv` holds on every run: meters and progress stay in range,
  coins stay non-negative, the decay rate stays at least 1, and
  `isCritical ==> gameOver`.
- Game over is sticky.
- A finished game is frozen for everything except the shop, the level tick,
  loading and restart.
- The decay rate follows the level.
- Neglect ends the game.
- A thriving pet levels up after a known number of ticks.

Module `Scenarios` works through concrete runs from the defaults.

Observations the proofs make explicit:

- `isCritical` is only ever set together with `gameOver`. `getStatusMessage`
  tests `gameOver` first, so the alert text ("¡Alerta! ...") is never shown in
  any state that keeps the invariant (`Display.AlertNeverShown`,
  `Lifecycle.FreshRunsKeepInv`).
- Neither the level tick nor the shop is gated on game over. A pet that starved can be fed from the shop and keep gaining level progress after the game is over (`Scenarios.ProgressAfterGameOver`).
- The code levels up on the tick AFTER progress has reached 100. It checks
  `prev >= 100` before incrementing, so progress climbs to 100, and the next
  tick converts it to a level (101 ticks from 0). One might expect a level-up
  when the increment reaches 100; the model follows the code
  (`Lifecycle.LevelUpAfter`).

Meters and the decay rate are `real`, because a lost fight leaves health
fractional (`h - h * 0.05` is not floored) and the rate grows by 0.5. Level,
level progress and coins are `int`. The random draws of `fight` are
parameters: `won`, and `amount` in [3000, 10000]. The `alert` of `buyItem` is
the boolean `ok`. The storage slot is an `Option<SavedRecord>`.

## Model

| member | source | states |
|---|---|---|
| PetData.RaiseMeter | src/components/Tamagotchi.jsx:111-112 | an increment yields the largest whole number not above `m + k` or 100; an in-range meter never decreases and stays in [0,100] |
| PetData.LowerMeter | src/components/Tamagotchi.jsx:72-76 | a decrement yields the largest whole number not above `m - k`, or 0; an in-range meter never rises, stays in [0,100], and a positive meter strictly drops when `k >= 1` |
| Actions.Feed | src/components/Tamagotchi.jsx:109-114 | no change once game over; otherwise hunger becomes `min(floor(h + 20), 100)`, health `min(floor(h + 5), 100)`, energy `max(floor(e - 5), 0)` (via `RaiseMeter`/`LowerMeter`), nothing else changes, an in-range hunger and health never drop and energy never rises; invariant kept |
| Actions.Play | src/components/Tamagotchi.jsx:116-122 | no change once game over; otherwise happiness +20 (floored, capped at 100), hunger −5, health −5 and energy −10 (floored, not below 0), hygiene and all non-meter fields untouched; invariant kept |
| Actions.Sleep | src/components/Tamagotchi.jsx:124-129 | no change once game over; otherwise health +10 and energy +20 (floored, capped at 100), happiness −5 (floored, not below 0), the rest untouched; invariant kept |
| Actions.Clean | src/components/Tamagotchi.jsx:131-135 | no change once game over; otherwise hygiene +20 (floored, capped at 100), energy −5 (floored, not below 0), the rest untouched; invariant kept |
| Actions.FightLossHealth | src/components/Tamagotchi.jsx:166 | a lost fight leaves exactly 95% of a non-negative health, unfloored, in [0,h]; positive health never reaches 0; negative health becomes 0 |
| Actions.Fight | src/components/Tamagotchi.jsx:153-169 | no change once game over; a win adds exactly the drawn amount (in [3000,10000]) to coins and touches no meter; a loss changes only health, to exactly `FightLossHealth(h)` = `max(h - h*0.05, 0)` (in [0,h], never 0 from positive), and records `Lost`; invariant kept |
| Actions.Target | src/components/Tamagotchi.jsx:180-188 | each of the four item names selects its meter, any other name (health included) selects none |
| Actions.Buy | src/components/Tamagotchi.jsx:172-189 | unaffordable: nothing changes; affordable: coins drop by exactly `cost`, only the named meter rises by 30 capped at 100, an unknown type changes no meter; flags untouched (not gated on game over); coins stay non-negative when `cost >= 0` |
| Ticks.Decay | src/components/Tamagotchi.jsx:69-79 | no change once game over; otherwise every meter becomes exactly `max(floor(m - decayRate), 0)` (`LowerMeter`), only meters change, each is a whole number >= 0, and with rate >= 1 every positive meter strictly drops and a zero meter stays 0; invariant kept |
| Ticks.LevelTick | src/components/Tamagotchi.jsx:82-96 | nothing changes unless every meter is above 20; the level rises by one exactly when progress was already at least 100, then progress is 0 and the rate grows by exactly 0.5; otherwise progress rises by one; only level, progress and rate change; invariant kept |
| Ticks.CriticalCheck | src/components/Tamagotchi.jsx:99-107 | no change once game over; game over afterwards iff it was over or some meter is 0; `isCritical` and `gameOver` are set together; not over afterwards means no meter is 0 and no alert; only the two flags change |
| Persistence.Load | src/components/Tamagotchi.jsx:18-32 | an empty slot changes nothing; the flags and battle result are kept; a missing `coins` loads as 0; a valid record keeps the invariant |
| Persistence.Snapshot | src/components/Tamagotchi.jsx:34-47 | loading the saved record into any state restores exactly the nine saved fields and keeps that state's `isCritical`, `gameOver` and battle result |
| Persistence.LoadThenSave | src/components/Tamagotchi.jsx:18-45 | saving a just-loaded record gives the record back, a missing `coins` as 0 |
| Display.ProgressColor | src/components/Tamagotchi.jsx:192-196 | green iff the value is at least 60, yellow iff in [30,60), red iff below 30 |
| Display.StatusMessage | src/components/Tamagotchi.jsx:199-203 | the game-over text whenever the game is over; the alert iff not over and critical; the all-well text iff neither |
| Display.AlertNeverShown | src/components/Tamagotchi.jsx:199-203 | under the invariant (`isCritical ==> gameOver`) the alert text is never the status |
| Lifecycle.Apply | src/components/Tamagotchi.jsx:69-189 | every single event keeps the invariant, keeps game over unless it is a restart, is a no-op after game over when gated, and without restart or load never lowers the level and raises the rate by 0.5 per level |
| Lifecycle.RunKeepsInv | src/components/Tamagotchi.jsx:69-189 | every run of events from a state keeping the invariant keeps it: meters in [0,100], progress in [0,100], level >= 1, rate >= 1, coins >= 0, `isCritical ==> gameOver` |
| Lifecycle.FreshRunsKeepInv | src/components/Tamagotchi.jsx:4-15 | every run from the defaults keeps the invariant and never shows the alert text |
| Lifecycle.GameOverSticky | src/components/Tamagotchi.jsx:99-107 | once over, the game stays over through any run without a restart |
| Lifecycle.GameOverFreezes | src/components/Tamagotchi.jsx:109-169 | once over, any run of care actions, fights, decay ticks and checks leaves the whole state unchanged |
| Lifecycle.RateFollowsLevel | src/components/Tamagotchi.jsx:85-91 | without restart or load the level never drops and the decay rate grows by exactly 0.5 per level gained, so it never decreases |
| Lifecycle.RateMatchesLevelKept | src/components/Tamagotchi.jsx:85-91 | without a load, `decayRate == 1 + 0.5 * (level - 1)` is kept by every run, restarts included |
| Lifecycle.NeglectEndsGame | src/components/Tamagotchi.jsx:69-107 | with rate >= 1, a meter at most n (n >= 1) makes the game over within n decay-and-check cycles |
| Lifecycle.ProgressClimbs | src/components/Tamagotchi.jsx:84-91 | while all meters are above 20, k ticks add exactly k to progress as long as it stays within 100, and change nothing else |
| Lifecycle.LevelUpAfter | src/components/Tamagotchi.jsx:82-96 | from progress p in [0,100], a thriving pet levels up on tick 101 - p: level +1, rate +0.5, progress 0, nothing else changes |
| Scenarios.FeedFromDefaults | src/components/Tamagotchi.jsx:109-114 | feeding a fresh pet gives hunger 70, health 100 (capped) and energy 45 |
| Scenarios.PurchaseRefused | src/components/Tamagotchi.jsx:172-176 | with 300 coins, buying the 500-coin energy item is refused and changes nothing |
| Scenarios.RestartFromAnyState | src/components/Tamagotchi.jsx:137-150 | restart from any state, game over included, gives exactly the defaults |
| Scenarios.NeglectFromDefaults | src/components/Tamagotchi.jsx:69-107 | a fresh pet left alone is game over after 50 decay cycles |
| Scenarios.ProgressAfterGameOver | src/components/Tamagotchi.jsx:82-96 | a starved pet fed from the shop keeps gaining level progress although the game is over |
| Tamagotchi.Pet.constructor | src/components/Tamagotchi.jsx:4-15 | a new component holds exactly the defaults, which keep the invariant |
| Tamagotchi.Pet.LoadState | src/components/Tamagotchi.jsx:18-32 | the fields after loading are `Persistence.Load` of the fields before; a valid record keeps the invariant |
| Tamagotchi.Pet.DecayTick | src/components/Tamagotchi.jsx:69-79 | the fields after the tick are `Ticks.Decay` of those before; invariant kept |
| Tamagotchi.Pet.LevelTick | src/components/Tamagotchi.jsx:82-96 | the fields after the tick are `Ticks.LevelTick` of those before; invariant kept |
| Tamagotchi.Pet.CriticalCheck | src/components/Tamagotchi.jsx:99-107 | the fields after are `Ticks.CriticalCheck` of those before; if not over, no meter is 0 and no alert |
| Tamagotchi.Pet.Feed | src/components/Tamagotchi.jsx:109-114 | the fields after are `Actions.Feed` of those before; invariant kept |
| Tamagotchi.Pet.Play | src/components/Tamagotchi.jsx:116-122 | the fields after are `Actions.Play` of those before; invariant kept |
| Tamagotchi.Pet.Sleep | src/components/Tamagotchi.jsx:124-129 | the fields after are `Actions.Sleep` of those before; invariant kept |
| Tamagotchi.Pet.Clean | src/components/Tamagotchi.jsx:131-135 | the fields after are `Actions.Clean` of those before; invariant kept |
| Tamagotchi.Pet.Restart | src/components/Tamagotchi.jsx:137-150 | every field is back to its default, whatever the state before |
| Tamagotchi.Pet.Fight | src/components/Tamagotchi.jsx:153-169 | the fields after are `Actions.Fight` of those before for the given draw; invariant kept |
| Tamagotchi.Pet.BuyItem | src/components/Tamagotchi.jsx:172-189 | reports success iff the pet can afford the item; the fields after are `Actions.Buy` of those before; invariant kept for non-negative prices |

## Left out

- Rendering (the JSX view, lines 205-303) is UI. Only `getProgressColor` and `getStatusMessage` are modelled.
- Browser storage is out: `localStorage`, `JSON.stringify`/`JSON.parse`, the `beforeunload` listener, and the autosave interval with its re-subscription (lines 19, 21, 46, 49-66). The slot is an `Option<SavedRecord>`. Saving is the pure `Persistence.Snapshot`. When saves happen is not modelled.
- Timer periods and scheduling (3000 ms, 1000 ms, 10000 ms) are left out. Each tick is one atomic step that the caller invokes. The critical check is an explicit step, as the component runs it after each change.
- `Math.random` is out. The fight outcome and the reward are parameters.
- `alert` is out. `buyItem` returns a boolean instead.
- IEEE-754 rounding of `0.05` and `0.5` is out. The model uses exact reals.
- React batching and StrictMode are out, including the updater at lines 85-90 that calls other setters. Each handler is one sequential transition.
- The battle-result message strings are out. They are kept as the tag `Won(amount)` / `Lost`.
- Persistence.Load: a saved blob that fails to parse, or that lacks a field other than `coins`, is not modelled. The record type always carries the eight other fields. In the component, such a blob would throw, or would store `undefined` in a field.
- Persistence.Load: the saved level, level progress and coins are taken to be integers. A saved fractional value for these fields is not modelled.
- Persistence.Load: a falsy `coins` other than a missing field (`0`, `null`) loads as 0 in the component. The model has only "missing" (`None`), which loads as 0, and a number, which loads as itself. This is the same for `0`.

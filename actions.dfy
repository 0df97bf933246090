/**
 * The user-triggered handlers of the component (`feed`, `play`, `sleep`,
 * `clean`, `fight`, `buyItem`) as transitions on `PetState`. `restartGame`
 * is the constant `PetData.Initial`.
 */
module Actions {
  import opened Wrappers
  import opened PetData

  /** `feed`: hunger +20, health +5, energy -5; nothing once the game is over. */
  function Feed(s: PetState): (r: PetState)
    ensures s.gameOver ==> r == s
    ensures OnlyMetersDiffer(s, r)
    ensures r.happiness == s.happiness && r.hygiene == s.hygiene
    ensures !s.gameOver ==> r == s.(hunger := RaiseMeter(s.hunger, 20.0),
                                    health := RaiseMeter(s.health, 5.0),
                                    energy := LowerMeter(s.energy, 5.0))
    ensures !s.gameOver && InRange(s) ==>
      s.hunger <= r.hunger && s.health <= r.health && r.energy <= s.energy
    ensures Inv(s) ==> Inv(r)
  {
    if s.gameOver then s
    else s.(hunger := RaiseMeter(s.hunger, 20.0),
            health := RaiseMeter(s.health, 5.0),
            energy := LowerMeter(s.energy, 5.0))
  }

  /** `play`: happiness +20, hunger -5, health -5, energy -10. */
  function Play(s: PetState): (r: PetState)
    ensures s.gameOver ==> r == s
    ensures OnlyMetersDiffer(s, r)
    ensures r.hygiene == s.hygiene
    ensures !s.gameOver ==> r == s.(happiness := RaiseMeter(s.happiness, 20.0),
                                    hunger := LowerMeter(s.hunger, 5.0),
                                    health := LowerMeter(s.health, 5.0),
                                    energy := LowerMeter(s.energy, 10.0))
    ensures !s.gameOver && InRange(s) ==>
      s.happiness <= r.happiness && r.hunger <= s.hunger
      && r.health <= s.health && r.energy <= s.energy
    ensures Inv(s) ==> Inv(r)
  {
    if s.gameOver then s
    else s.(happiness := RaiseMeter(s.happiness, 20.0),
            hunger := LowerMeter(s.hunger, 5.0),
            health := LowerMeter(s.health, 5.0),
            energy := LowerMeter(s.energy, 10.0))
  }

  /** `sleep`: health +10, happiness -5, energy +20. */
  function Sleep(s: PetState): (r: PetState)
    ensures s.gameOver ==> r == s
    ensures OnlyMetersDiffer(s, r)
    ensures r.hunger == s.hunger && r.hygiene == s.hygiene
    ensures !s.gameOver ==> r == s.(health := RaiseMeter(s.health, 10.0),
                                    happiness := LowerMeter(s.happiness, 5.0),
                                    energy := RaiseMeter(s.energy, 20.0))
    ensures !s.gameOver && InRange(s) ==>
      s.health <= r.health && r.happiness <= s.happiness && s.energy <= r.energy
    ensures Inv(s) ==> Inv(r)
  {
    if s.gameOver then s
    else s.(health := RaiseMeter(s.health, 10.0),
            happiness := LowerMeter(s.happiness, 5.0),
            energy := RaiseMeter(s.energy, 20.0))
  }

  /** `clean`: hygiene +20, energy -5. */
  function Clean(s: PetState): (r: PetState)
    ensures s.gameOver ==> r == s
    ensures OnlyMetersDiffer(s, r)
    ensures r.hunger == s.hunger && r.happiness == s.happiness && r.health == s.health
    ensures !s.gameOver ==> r == s.(hygiene := RaiseMeter(s.hygiene, 20.0),
                                    energy := LowerMeter(s.energy, 5.0))
    ensures !s.gameOver && InRange(s) ==> s.hygiene <= r.hygiene && r.energy <= s.energy
    ensures Inv(s) ==> Inv(r)
  {
    if s.gameOver then s
    else s.(hygiene := RaiseMeter(s.hygiene, 20.0),
            energy := LowerMeter(s.energy, 5.0))
  }

  /** Health after a lost fight: `max(h - h * 0.05, 0)`, not floored. */
  function FightLossHealth(h: real): (r: real)
    ensures h >= 0.0 ==> r * 20.0 == h * 19.0
    ensures h <= 0.0 ==> r == 0.0
    ensures h > 0.0 ==> 0.0 < r < h
    ensures MeterOk(h) ==> MeterOk(r)
  {
    var v := h - h * 0.05;
    if v > 0.0 then v else 0.0
  }

  /**
   * `fight`, with the two random draws as parameters: `won` is the coin
   * toss and `amount` the reward drawn from [3000, 10000].
   */
  function Fight(s: PetState, won: bool, amount: int): (r: PetState)
    requires 3000 <= amount <= 10000
    ensures s.gameOver ==> r == s
    ensures !s.gameOver && won ==>
      r == s.(coins := r.coins, battleResult := Won(amount))
      && 3000 <= r.coins - s.coins <= 10000 && r.coins - s.coins == amount
    ensures !s.gameOver && !won ==>
      r == s.(health := r.health, battleResult := Lost)
      && r.health == FightLossHealth(s.health)
      && (s.health >= 0.0 ==> 0.0 <= r.health <= s.health)
      && (s.health > 0.0 ==> r.health > 0.0)
    ensures Inv(s) ==> Inv(r)
  {
    if s.gameOver then s
    else if won then s.(coins := s.coins + amount, battleResult := Won(amount))
    else s.(health := FightLossHealth(s.health), battleResult := Lost)
  }

  /** A shop item: `type` names a meter, `cost` is in coins. */
  datatype Item = Item(kind: string, cost: int)

  /** The meter a shop item raises; health and unknown names raise none. */
  function Target(kind: string): (m: Option<Meter>)
    ensures m == Some(Hunger) <==> kind == "hunger"
    ensures m == Some(Happiness) <==> kind == "happiness"
    ensures m == Some(Hygiene) <==> kind == "hygiene"
    ensures m == Some(Energy) <==> kind == "energy"
    ensures m != Some(Health)
  {
    if kind == "hunger" then Some(Hunger)
    else if kind == "happiness" then Some(Happiness)
    else if kind == "hygiene" then Some(Hygiene)
    else if kind == "energy" then Some(Energy)
    else None
  }

  /** The affordability check that precedes a purchase. */
  predicate CanAfford(s: PetState, item: Item) {
    !(s.coins < item.cost)
  }

  /**
   * `buyItem`: when affordable, pay `cost` and raise the item's meter by 30
   * (capped at 100); otherwise change nothing. Not gated on game over.
   */
  function Buy(s: PetState, item: Item): (r: PetState)
    ensures !CanAfford(s, item) ==> r == s
    ensures CanAfford(s, item) ==> r.coins == s.coins - item.cost
    ensures r == s.(coins := r.coins, hunger := r.hunger, happiness := r.happiness,
                    health := r.health, hygiene := r.hygiene, energy := r.energy)
    ensures forall m :: Target(item.kind) != Some(m) ==> Get(r, m) == Get(s, m)
    ensures forall m :: CanAfford(s, item) && Target(item.kind) == Some(m) ==>
      Get(r, m) == RaiseMeter(Get(s, m), 30.0)
    ensures Inv(s) && item.cost >= 0 ==> Inv(r)
  {
    if !CanAfford(s, item) then s
    else
      var paid := s.(coins := s.coins - item.cost);
      match Target(item.kind)
      case Some(m) => Set(paid, m, RaiseMeter(Get(paid, m), 30.0))
      case None => paid
  }
}

/** The game's state transition function (App.tsx, `initialGameState` and
    `gameReducer`): a total, pure map from a state and an action to the next
    state.  An action whose guard fails, and any action it does not know,
    leaves the state as it was. */
module Reducer {
  import opened Types
  import opened Constants

  const InitialState: GameState := GameState(
    InitialCash,
    map[],
    map["storage" := 1, "marketing" := 1],
    false,
    SpecialOffer(None, None),
    None,
    Stats(0, 0.0),
    0)

  /** The only change a sale or a stock purchase makes to the inventory: product `id` now holds `n`. */
  predicate InventoryChangedOnlyAt(before: map<string, int>, after: map<string, int>, id: string, n: int) {
    && after.Keys == before.Keys + {id}
    && after[id] == n
    && forall k :: k in before && k != id ==> after[k] == before[k]
  }

  function Reduce(s: GameState, a: Action): (r: GameState)
    ensures s.isGameOver ==> r.isGameOver
    ensures r.isGameOver ==> s.isGameOver || a.SetGameOver?
    ensures r.currentGoalIndex == s.currentGoalIndex + (if a.CompleteGoal? then 1 else 0)
    ensures r.offerCooldownUntil != s.offerCooldownUntil ==> a.StartSpecialOffer?
  {
    match a
    case SellItem(id, salePrice) =>
      if FindProduct(id).None? || StockOf(s.inventory, id) <= 0 then s
      else s.(
        cash := s.cash + salePrice,
        inventory := s.inventory[id := s.inventory[id] - 1],
        stats := Stats(s.stats.totalItemsSold + 1, s.stats.totalCashEarned + salePrice))
    case BuyStock(id, quantity, cost) =>
      if s.cash < cost then s
      else s.(cash := s.cash - cost, inventory := s.inventory[id := StockOf(s.inventory, id) + quantity])
    case BuyUpgrade(id, cost) =>
      if s.cash < cost then s
      else s.(cash := s.cash - cost, upgrades := s.upgrades[id := LevelOf(s.upgrades, id) + 1])
    case StartSpecialOffer(id, cost, expiresAt, cooldownUntil) =>
      if s.cash < cost then s
      else s.(
        cash := s.cash - cost,
        specialOffer := SpecialOffer(Some(id), Some(expiresAt)),
        offerCooldownUntil := Some(cooldownUntil))
    case EndSpecialOffer =>
      s.(specialOffer := SpecialOffer(None, None))
    case CompleteGoal(reward) =>
      s.(cash := s.cash + reward, currentGoalIndex := s.currentGoalIndex + 1)
    case SetGameOver =>
      s.(isGameOver := true)
    case Unrecognized(_) =>
      s
  }

  // ---- One action at a time ----

  /** A sale needs a catalogue product in stock; it then moves exactly one unit into cash and the counters. */
  lemma SellItemStep(s: GameState, id: string, salePrice: real)
    ensures var r := Reduce(s, SellItem(id, salePrice));
      if FindProduct(id).None? || StockOf(s.inventory, id) <= 0 then r == s
      else
        && r.cash == s.cash + salePrice
        && InventoryChangedOnlyAt(s.inventory, r.inventory, id, StockOf(s.inventory, id) - 1)
        && r.stats.totalItemsSold == s.stats.totalItemsSold + 1
        && r.stats.totalCashEarned == s.stats.totalCashEarned + salePrice
        && r.upgrades == s.upgrades && r.isGameOver == s.isGameOver
        && r.specialOffer == s.specialOffer && r.offerCooldownUntil == s.offerCooldownUntil
        && r.currentGoalIndex == s.currentGoalIndex
  {
  }

  /** Buying stock only checks cash: it never spends below zero and does not cap the stock. */
  lemma BuyStockStep(s: GameState, id: string, quantity: int, cost: real)
    ensures var r := Reduce(s, BuyStock(id, quantity, cost));
      if s.cash < cost then r == s
      else
        && r.cash == s.cash - cost && r.cash >= 0.0
        && InventoryChangedOnlyAt(s.inventory, r.inventory, id, StockOf(s.inventory, id) + quantity)
        && r == s.(cash := r.cash, inventory := r.inventory)
  {
  }

  /** Buying an upgrade raises exactly the named level by one, an absent level counting as 1. */
  lemma BuyUpgradeStep(s: GameState, id: string, cost: real)
    ensures var r := Reduce(s, BuyUpgrade(id, cost));
      if s.cash < cost then r == s
      else
        && r.cash == s.cash - cost
        && r.upgrades.Keys == s.upgrades.Keys + {id}
        && r.upgrades[id] == LevelOf(s.upgrades, id) + 1
        && (id !in s.upgrades ==> r.upgrades[id] == 2)
        && (forall k :: k in s.upgrades && k != id ==> r.upgrades[k] == s.upgrades[k])
        && r == s.(cash := r.cash, upgrades := r.upgrades)
  {
  }

  /** Starting an offer sets product, expiry and cooldown together; ending one clears only the offer. */
  lemma SpecialOfferSteps(s: GameState, id: string, cost: real, expiresAt: int, cooldownUntil: int)
    ensures var r := Reduce(s, StartSpecialOffer(id, cost, expiresAt, cooldownUntil));
      if s.cash < cost then r == s
      else
        && r.cash == s.cash - cost
        && r.specialOffer.productId == Some(id) && r.specialOffer.expiresAt == Some(expiresAt)
        && r.offerCooldownUntil == Some(cooldownUntil)
        && r == s.(cash := r.cash, specialOffer := r.specialOffer, offerCooldownUntil := r.offerCooldownUntil)
    ensures var r := Reduce(s, EndSpecialOffer);
      && r.specialOffer.productId.None? && r.specialOffer.expiresAt.None?
      && r.offerCooldownUntil == s.offerCooldownUntil
      && r == s.(specialOffer := r.specialOffer)
  {
  }

  /** Completing a goal pays the reward and advances the goal index by one; game over only sets the flag;
      an unknown action changes nothing. */
  lemma UnconditionalSteps(s: GameState, reward: real, tag: string)
    ensures var r := Reduce(s, CompleteGoal(reward));
      r.cash == s.cash + reward && r.currentGoalIndex == s.currentGoalIndex + 1
      && r == s.(cash := r.cash, currentGoalIndex := r.currentGoalIndex)
    ensures var r := Reduce(s, SetGameOver); r.isGameOver && r == s.(isGameOver := true)
    ensures Reduce(s, Unrecognized(tag)) == s
  {
  }

  // ---- Invariants of single steps ----

  /** Both known upgrades are present and every level is at least 1. */
  predicate Wellformed(s: GameState) {
    && "storage" in s.upgrades && "marketing" in s.upgrades
    && forall k :: k in s.upgrades ==> s.upgrades[k] >= 1
  }

  /** Amounts credited by an action are never negative (catalogue prices and goal rewards are positive). */
  predicate Credits(a: Action) {
    match a
    case SellItem(_, salePrice) => salePrice >= 0.0
    case CompleteGoal(reward) => reward >= 0.0
    case _ => true
  }

  /** What a single action can never undo: game over, upgrade levels, counters, the goal index. */
  lemma StepMonotone(s: GameState, a: Action)
    ensures var r := Reduce(s, a);
      && (s.isGameOver ==> r.isGameOver)
      && s.upgrades.Keys <= r.upgrades.Keys
      && (forall k :: k in s.upgrades ==> r.upgrades[k] >= s.upgrades[k])
      && r.stats.totalItemsSold >= s.stats.totalItemsSold
      && (Credits(a) ==> r.stats.totalCashEarned >= s.stats.totalCashEarned)
      && (Credits(a) && s.cash >= 0.0 ==> r.cash >= 0.0)
      && r.currentGoalIndex == s.currentGoalIndex + (if a.CompleteGoal? then 1 else 0)
  {
  }

  lemma StepKeepsWellformed(s: GameState, a: Action)
    requires Wellformed(s)
    ensures Wellformed(Reduce(s, a))
  {
  }

  // ---- Any sequence of actions ----

  /** The state after dispatching `acts` in order. */
  function ReduceAll(s: GameState, acts: seq<Action>): GameState
    decreases |acts|
  {
    if acts == [] then s else ReduceAll(Reduce(s, acts[0]), acts[1..])
  }

  /** The number of goal completions among `acts`. */
  function GoalCompletions(acts: seq<Action>): nat {
    if acts == [] then 0 else (if acts[0].CompleteGoal? then 1 else 0) + GoalCompletions(acts[1..])
  }

  /** Over any run: game over never reverts, levels never fall, the goal index moves only by
      goal completions, and with non-negative credits the counters never fall and cash stays
      non-negative. */
  lemma {:induction false} RunMonotone(s: GameState, acts: seq<Action>)
    ensures var r := ReduceAll(s, acts);
      && (s.isGameOver ==> r.isGameOver)
      && s.upgrades.Keys <= r.upgrades.Keys
      && (forall k :: k in s.upgrades ==> r.upgrades[k] >= s.upgrades[k])
      && r.stats.totalItemsSold >= s.stats.totalItemsSold
      && r.currentGoalIndex == s.currentGoalIndex + GoalCompletions(acts)
    ensures (forall i :: 0 <= i < |acts| ==> Credits(acts[i])) ==>
      var r := ReduceAll(s, acts);
      r.stats.totalCashEarned >= s.stats.totalCashEarned && (s.cash >= 0.0 ==> r.cash >= 0.0)
    decreases |acts|
  {
    if acts != [] {
      var t := Reduce(s, acts[0]);
      StepMonotone(s, acts[0]);
      RunMonotone(t, acts[1..]);
      if forall i :: 0 <= i < |acts| ==> Credits(acts[i]) {
        assert Credits(acts[0]);
        assert forall i :: 0 <= i < |acts[1..]| ==> Credits(acts[1..][i]) by {
          forall i | 0 <= i < |acts[1..]| ensures Credits(acts[1..][i]) {
            assert acts[1..][i] == acts[i + 1];
          }
        }
      }
    }
  }

  lemma {:induction false} RunKeepsWellformed(s: GameState, acts: seq<Action>)
    requires Wellformed(s)
    ensures Wellformed(ReduceAll(s, acts))
    decreases |acts|
  {
    if acts != [] {
      StepKeepsWellformed(s, acts[0]);
      RunKeepsWellformed(Reduce(s, acts[0]), acts[1..]);
    }
  }

  /** The offer's product and expiry are either both present or both absent. */
  predicate OfferPaired(s: GameState) {
    s.specialOffer.productId.Some? <==> s.specialOffer.expiresAt.Some?
  }

  /** Starting an offer sets both fields and ending one clears both, so no run separates them. */
  lemma {:induction false} RunKeepsOfferPaired(s: GameState, acts: seq<Action>)
    requires OfferPaired(s)
    ensures OfferPaired(ReduceAll(s, acts))
    decreases |acts|
  {
    if acts != [] {
      var t := Reduce(s, acts[0]);
      assert OfferPaired(t);
      RunKeepsOfferPaired(t, acts[1..]);
    }
  }

  lemma InitialStateWellformed()
    ensures Wellformed(InitialState) && OfferPaired(InitialState)
    ensures InitialState.specialOffer == SpecialOffer(None, None) && InitialState.offerCooldownUntil.None?
    ensures !InitialState.isGameOver && InitialState.stats == Stats(0, 0.0) && InitialState.currentGoalIndex == 0
    ensures InitialState.cash == 500.0 && InitialState.inventory == map[]
    ensures LevelOf(InitialState.upgrades, "storage") == 1 && LevelOf(InitialState.upgrades, "marketing") == 1
  {
  }

  // ---- Worked scenarios ----

  /** Buy ten apples for 10 from the start, then sell one for 2. */
  lemma BuyThenSellScenario()
    ensures var bought := Reduce(InitialState, BuyStock("apple", 10, 10.0));
      && bought.cash == 490.0 && bought.inventory["apple"] == 10
      && var sold := Reduce(bought, SellItem("apple", 2.0));
      && sold.cash == 492.0 && sold.inventory["apple"] == 9
      && sold.stats == Stats(1, 2.0)
    ensures var empty := InitialState.(inventory := map["apple" := 0]);
      Reduce(empty, SellItem("apple", 2.0)) == empty
  {
    assert FindProduct("apple") == Some(Products[0]) by { FindProductAt(0); }
  }

  /** An offer started at T costs 200 and ending it keeps the cooldown at T + 90000. */
  lemma OfferScenario(t: int)
    ensures var started := Reduce(InitialState, StartSpecialOffer("apple", 200.0, t + 30000, t + 90000));
      && started.cash == 300.0
      && started.specialOffer == SpecialOffer(Some("apple"), Some(t + 30000))
      && var ended := Reduce(started, EndSpecialOffer);
      && ended.specialOffer == SpecialOffer(None, None)
      && ended.offerCooldownUntil == Some(t + 90000)
  {
  }

  /** The reducer alone lets stock exceed the storage limit: capping is left to the caller. */
  lemma ReducerDoesNotCap()
    ensures var r := Reduce(InitialState, BuyStock("apple", 60, 60.0));
      r.inventory["apple"] == 60 > StorageEffect(InitialState.upgrades["storage"])
  {
  }
}

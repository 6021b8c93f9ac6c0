/** The running game around the reducer (App.tsx): the customer-log feed, the
    customer-arrival and offer-expiry timers, the goal and bankruptcy checks and
    the three purchase handlers.  Each handler is first described by the action it
    dispatches and the log line it writes (an `Effect`); class `Store` then holds
    the game state and the feed and performs those effects step by step.  The
    clock and the random product choice are parameters. */
module Simulation {
  import opened Types
  import opened Constants
  import opened Reducer
  import opened BuyStock

  // ---- The customer-log feed ----

  const MaxLogs: nat := 20

  /** The first `n` elements of `s` (all of them when there are fewer). */
  function Take<T>(s: seq<T>, n: nat): (r: seq<T>)
    ensures |r| == if |s| <= n then |s| else n
    ensures forall i :: 0 <= i < |r| ==> r[i] == s[i]
  {
    if |s| <= n then s else s[..n]
  }

  /** `addLog`: the new entry goes in front and only the 19 newest old entries stay. */
  function PushLog(logs: seq<LogEntry>, e: LogEntry): (r: seq<LogEntry>)
    ensures 1 <= |r| <= MaxLogs && r[0] == e
    ensures |r| == if |logs| < MaxLogs then |logs| + 1 else MaxLogs
    ensures forall i :: 1 <= i < |r| ==> r[i] == logs[i - 1]
  {
    [e] + Take(logs, MaxLogs - 1)
  }

  /** The feed after writing `es` in order. */
  function PushAll(logs: seq<LogEntry>, es: seq<LogEntry>): seq<LogEntry>
    decreases |es|
  {
    if es == [] then logs else PushAll(PushLog(logs, es[0]), es[1..])
  }

  function Reversed<T>(s: seq<T>): (r: seq<T>)
    ensures |r| == |s|
    ensures forall i :: 0 <= i < |s| ==> r[i] == s[|s| - 1 - i]
  {
    if s == [] then [] else Reversed(s[1..]) + [s[0]]
  }

  /** Cutting `b` to `n` before appending it to `a` does not change the first `n` elements. */
  lemma TakeAppendTake<T>(a: seq<T>, b: seq<T>, n: nat)
    ensures Take(a + Take(b, n), n) == Take(a + b, n)
  {
    var l := Take(a + Take(b, n), n);
    var r := Take(a + b, n);
    assert |l| == |r|;
    forall i | 0 <= i < |l| ensures l[i] == r[i] {
      if i >= |a| {
        assert l[i] == Take(b, n)[i - |a|];
      }
    }
  }

  lemma PushLogIsTake(logs: seq<LogEntry>, e: LogEntry)
    ensures PushLog(logs, e) == Take([e] + logs, MaxLogs)
  {
    var l := PushLog(logs, e);
    var r := Take([e] + logs, MaxLogs);
    assert |l| == |r|;
    forall i | 0 <= i < |l| ensures l[i] == r[i] {
      if i > 0 {
        assert r[i] == logs[i - 1];
      }
    }
  }

  /** Whatever is written, the feed holds the 20 most recent entries, newest first. */
  lemma {:induction false} FeedIsRecentHistory(logs: seq<LogEntry>, es: seq<LogEntry>)
    requires |logs| <= MaxLogs
    ensures PushAll(logs, es) == Take(Reversed(es) + logs, MaxLogs)
    decreases |es|
  {
    if es == [] {
      assert Reversed(es) + logs == logs;
    } else {
      var pushed := PushLog(logs, es[0]);
      PushLogIsTake(logs, es[0]);
      FeedIsRecentHistory(pushed, es[1..]);
      var rest := Reversed(es[1..]);
      TakeAppendTake(rest, [es[0]] + logs, MaxLogs);
      assert Reversed(es) == rest + [es[0]];
      assert rest + ([es[0]] + logs) == Reversed(es) + logs;
    }
  }

  // ---- Values derived from the state ----

  /** Stock limit per product from the storage level (App.tsx `maxInventory`). */
  function MaxInventory(s: GameState): int
    requires "storage" in s.upgrades
  {
    StorageEffect(s.upgrades["storage"])
  }

  /** Milliseconds between customers from the marketing level (App.tsx `customerSpeed`). */
  function CustomerInterval(s: GameState): real
    requires "marketing" in s.upgrades
  {
    MarketingEffect(s.upgrades["marketing"])
  }

  /** `GOALS[currentGoalIndex]`: no goal once the index is past the list. */
  function CurrentGoal(s: GameState): (g: Option<Goal>)
    ensures g.Some? <==> s.currentGoalIndex < 6
    ensures g.Some? ==> g.value == Goals[s.currentGoalIndex]
  {
    if s.currentGoalIndex < |Goals| then Some(Goals[s.currentGoalIndex]) else None
  }

  // ---- What each handler does ----

  /** The action a handler dispatches and the log line it writes, either possibly absent. */
  datatype Effect = Effect(action: Option<Action>, log: Option<LogEntry>)

  function Dispatched(s: GameState, a: Option<Action>): GameState {
    if a.Some? then Reduce(s, a.value) else s
  }

  function Logged(logs: seq<LogEntry>, e: Option<LogEntry>): seq<LogEntry> {
    if e.Some? then PushLog(logs, e.value) else logs
  }

  /** What a customer pays for `p`: the offer price when `p` is the product on offer. */
  function SalePrice(s: GameState, p: Product): (r: real)
    ensures s.specialOffer.productId == Some(p.id) ==> r == 1.5 * p.price as real
    ensures s.specialOffer.productId != Some(p.id) ==> r == p.price as real
  {
    if s.specialOffer.productId == Some(p.id) then OfferPrice(p) else p.price as real
  }

  /** `handleCustomerArrival` for the product at `idx` (the random draw). */
  function ArrivalEffect(s: GameState, idx: nat): (e: Effect)
    requires idx < |Products|
    ensures s.isGameOver <==> e.log.None?
    ensures e.action.Some? <==> !s.isGameOver && StockOf(s.inventory, Products[idx].id) > 0
  {
    var p := Products[idx];
    if s.isGameOver then Effect(None, None)
    else if StockOf(s.inventory, p.id) > 0 then
      var onSale := s.specialOffer.productId == Some(p.id);
      Effect(Some(SellItem(p.id, SalePrice(s, p))), Some(Sold(p.id, SalePrice(s, p), onSale)))
    else Effect(None, Some(OutOfStock(p.id)))
  }

  /** A customer buys the drawn product when it is in stock, at 1.5 times its price exactly
      when it is on offer; otherwise the state does not change.  Either way one line is logged
      unless the game is over. */
  lemma ArrivalOutcome(s: GameState, idx: nat)
    requires idx < |Products|
    ensures var p := Products[idx];
      var e := ArrivalEffect(s, idx);
      var r := Dispatched(s, e.action);
      if s.isGameOver || StockOf(s.inventory, p.id) <= 0 then r == s
      else
        && StockOf(r.inventory, p.id) == StockOf(s.inventory, p.id) - 1
        && (s.specialOffer.productId == Some(p.id) ==> r.cash == s.cash + 1.5 * p.price as real)
        && (s.specialOffer.productId != Some(p.id) ==> r.cash == s.cash + p.price as real)
        && r.cash > s.cash
        && r.stats.totalItemsSold == s.stats.totalItemsSold + 1
        && e.log == Some(Sold(p.id, r.cash - s.cash, s.specialOffer.productId == Some(p.id)))
  {
    var p := Products[idx];
    var e := ArrivalEffect(s, idx);
    if s.isGameOver || StockOf(s.inventory, p.id) <= 0 {
      assert e.action.None?;
    } else {
      FindProductAt(idx);
      ProductMargins();
      assert p in Products;
      var price := SalePrice(s, p);
      assert e.action == Some(SellItem(p.id, price));
      SellItemStep(s, p.id, price);
      var r := Reduce(s, SellItem(p.id, price));
      assert r.cash - s.cash == price > 0.0;
      assert e.log == Some(Sold(p.id, price, s.specialOffer.productId == Some(p.id)));
    }
  }

  /** An offer sale always earns more than a regular sale of the same product. */
  lemma OfferSaleEarnsMore(s: GameState, idx: nat)
    requires idx < |Products|
    requires s.specialOffer.productId == Some(Products[idx].id)
    ensures SalePrice(s, Products[idx]) > Products[idx].price as real
    ensures SalePrice(s, Products[idx]) == 1.5 * Products[idx].price as real
  {
    ProductMargins();
    assert Products[idx] in Products;
  }

  /** The name logged when an offer ends: `PRODUCTS[id]?.name || 'the item'`. */
  function OfferedName(id: Option<string>): (name: string)
    ensures id.Some? && FindProduct(id.value).Some? ==> name == FindProduct(id.value).value.name
    ensures id.None? || FindProduct(id.value).None? ==> name == "the item"
  {
    if id.Some? && FindProduct(id.value).Some? then FindProduct(id.value).value.name else "the item"
  }

  /** The body of the one-second offer timer. */
  function OfferTickEffect(s: GameState, now: int): (e: Effect)
    ensures e.action.Some? <==> e.log.Some?
    ensures e.action.Some? ==> e.action.value == EndSpecialOffer
  {
    if TimeSet(s.specialOffer.expiresAt) && now > s.specialOffer.expiresAt.value then
      Effect(Some(EndSpecialOffer), Some(OfferEnded(OfferedName(s.specialOffer.productId))))
    else Effect(None, None)
  }

  /** The offer ends exactly when its expiry is set and already passed; ending it clears the
      offer and keeps the cooldown; otherwise nothing changes. */
  lemma OfferTickOutcome(s: GameState, now: int)
    ensures var e := OfferTickEffect(s, now);
      e.action.Some? <==> s.specialOffer.expiresAt.Some? && s.specialOffer.expiresAt.value != 0
                          && now > s.specialOffer.expiresAt.value
    ensures var r := Dispatched(s, OfferTickEffect(s, now).action);
      && (OfferTickEffect(s, now).action.Some? ==>
            r.specialOffer == SpecialOffer(None, None) && r.offerCooldownUntil == s.offerCooldownUntil
            && r == s.(specialOffer := r.specialOffer))
      && (OfferTickEffect(s, now).action.None? ==> r == s)
  {
    var e := OfferTickEffect(s, now);
    if e.action.Some? {
      assert Dispatched(s, e.action) == s.(specialOffer := SpecialOffer(None, None));
    }
  }

  /** After a tick at `now`, a tick at any `later` time does nothing if the first one ended the
      offer, and otherwise behaves as it would have on the old state. */
  lemma OfferTickSettles(s: GameState, now: int, later: int)
    ensures var r := Dispatched(s, OfferTickEffect(s, now).action);
      OfferTickEffect(r, later).action.None? <==>
        OfferTickEffect(s, now).action.Some? || OfferTickEffect(s, later).action.None?
  {
    var e := OfferTickEffect(s, now);
    var r := Dispatched(s, e.action);
    if e.action.Some? {
      assert !TimeSet(r.specialOffer.expiresAt);
    } else {
      assert r == s;
    }
  }

  /** The goal-completion effect: only the current goal, only when its own predicate holds. */
  function GoalCheckEffect(s: GameState): (e: Effect)
    ensures e.action.Some? <==> e.log.Some?
  {
    var i := s.currentGoalIndex;
    if i < |Goals| && IsCompleted(i, s) then
      Effect(Some(CompleteGoal(Goals[i].reward)), Some(GoalAchieved(Goals[i].description, Goals[i].reward)))
    else Effect(None, None)
  }

  /** The goal check fires exactly when the current goal's value has reached its target; it then
      pays exactly that goal's reward and moves to the next goal, so the same goal never fires twice. */
  lemma GoalCheckOutcome(s: GameState)
    ensures var e := GoalCheckEffect(s);
      e.action.Some? <==> CurrentGoal(s).Some? && CurrentValue(CurrentGoal(s).value, s) >= CurrentGoal(s).value.target
    ensures var r := Dispatched(s, GoalCheckEffect(s).action);
      GoalCheckEffect(s).action.Some? ==>
        && r.cash == s.cash + Goals[s.currentGoalIndex].reward
        && r.cash > s.cash
        && r.currentGoalIndex == s.currentGoalIndex + 1
        && r == s.(cash := r.cash, currentGoalIndex := r.currentGoalIndex)
    ensures s.currentGoalIndex >= |Goals| ==> GoalCheckEffect(s) == Effect(None, None)
  {
    if s.currentGoalIndex < |Goals| {
      CompletedMeansTargetReached(s.currentGoalIndex, s);
      GoalsShape();
      assert Goals[s.currentGoalIndex] in Goals;
    }
  }

  /** Some product, known or not, has stock. */
  predicate HasStock(inventory: map<string, int>) {
    exists k :: k in inventory && inventory[k] > 0
  }

  /** Some catalogue product costs no more than `cash`. */
  predicate CanAffordAnything(cash: real) {
    exists p :: p in Products && p.cost as real <= cash
  }

  /** The game-over condition: no cash, no stock and nothing affordable. */
  predicate Bankrupt(s: GameState) {
    s.cash <= 0.0 && !HasStock(s.inventory) && !CanAffordAnything(s.cash)
  }

  /** The game-over check: it never logs, and its only action is to end the game. */
  function BankruptcyEffect(s: GameState): (e: Effect)
    ensures e.log.None?
    ensures e.action.Some? ==> e.action.value == SetGameOver
  {
    if Bankrupt(s) then Effect(Some(SetGameOver), None) else Effect(None, None)
  }

  /** As every product costs at least 1, bankruptcy is simply: no cash and no stock. */
  lemma BankruptcyIsNoCashNoStock(s: GameState)
    ensures Bankrupt(s) <==> s.cash <= 0.0 && forall k :: k in s.inventory ==> s.inventory[k] <= 0
    ensures BankruptcyEffect(s).action.Some? <==> Bankrupt(s)
    ensures Bankrupt(s) ==> Dispatched(s, BankruptcyEffect(s).action).isGameOver
  {
    ProductMargins();
    if s.cash <= 0.0 {
      assert !CanAffordAnything(s.cash);
    }
  }

  /** At zero cash with no stock the game ends; a single unit of stock, or any cash, keeps it going. */
  lemma BankruptcyScenarios()
    ensures Bankrupt(InitialState.(cash := 0.0, inventory := map["apple" := 0]))
    ensures !Bankrupt(InitialState.(cash := 0.0, inventory := map["apple" := 1]))
    ensures !Bankrupt(InitialState.(cash := 0.5, inventory := map[]))
  {
    BankruptcyIsNoCashNoStock(InitialState.(cash := 0.0, inventory := map["apple" := 0]));
    assert InitialState.(cash := 0.0, inventory := map["apple" := 1]).inventory["apple"] > 0;
  }

  /** `handleBuyStock`: dispatch the purchase of `quantity` units when the cash covers it. */
  function BuyStockEffect(s: GameState, id: string, quantity: int): (e: Effect)
    requires FindProduct(id).Some?
    ensures e.action.Some? <==> s.cash >= TotalCost(FindProduct(id).value, quantity)
    ensures e.action.Some? <==> e.log.None?
    ensures e.action.Some? ==> e.action.value == BuyStock(id, quantity, TotalCost(FindProduct(id).value, quantity))
    ensures e.log.Some? ==> e.log.value == NoCashForStock
  {
    var totalCost := TotalCost(FindProduct(id).value, quantity);
    if s.cash >= totalCost then Effect(Some(BuyStock(id, quantity, totalCost)), None)
    else Effect(None, Some(NoCashForStock))
  }

  /** `handleBuyUpgrade`: the price is the upgrade's cost at its current level (absent counts as 1). */
  function BuyUpgradeEffect(s: GameState, kind: UpgradeKind): (e: Effect)
    ensures e.action.Some? <==> s.cash >= kind.Cost(LevelOf(s.upgrades, kind.Key()))
    ensures e.action.Some? <==> e.log.None?
  {
    var cost := kind.Cost(LevelOf(s.upgrades, kind.Key()));
    if s.cash >= cost then Effect(Some(BuyUpgrade(kind.Key(), cost)), None)
    else Effect(None, Some(NoCashForUpgrade))
  }

  /** Buying an upgrade raises its level by one and pays the curve's price; storage then holds
      15 more per product and customers come strictly more often after a marketing upgrade. */
  lemma BuyUpgradeOutcome(s: GameState, kind: UpgradeKind)
    requires Wellformed(s)
    ensures var r := Dispatched(s, BuyUpgradeEffect(s, kind).action);
      BuyUpgradeEffect(s, kind).action.Some? ==>
        && r.cash == s.cash - kind.Cost(s.upgrades[kind.Key()]) && r.cash >= 0.0
        && r.upgrades[kind.Key()] == s.upgrades[kind.Key()] + 1
        && (kind == Storage ==> MaxInventory(r) == MaxInventory(s) + 15 && CustomerInterval(r) == CustomerInterval(s))
        && (kind == Marketing ==> CustomerInterval(r) < CustomerInterval(s) && MaxInventory(r) == MaxInventory(s))
    ensures BuyUpgradeEffect(s, kind).action.None? ==> Dispatched(s, BuyUpgradeEffect(s, kind).action) == s
  {
    var l := s.upgrades[kind.Key()];
    if kind == Marketing {
      MarketingIntervalShrinks(l);
    }
  }

  /** `handleStartPromotion` at time `now`: no check of its own, the reducer's cash test decides. */
  function StartPromotionEffect(s: GameState, id: string, now: int): (e: Effect)
    requires FindProduct(id).Some?
    ensures e.log == Some(OfferStarted(FindProduct(id).value.name))
    ensures e.action.Some? && e.action.value.StartSpecialOffer?
  {
    Effect(
      Some(StartSpecialOffer(id, SpecialOfferCost, now + SpecialOfferDuration,
                             now + SpecialOfferDuration + SpecialOfferCooldown)),
      Some(OfferStarted(FindProduct(id).value.name)))
  }

  /** An affordable promotion runs for 30 s and blocks the next one for 60 s after it ends;
      an unaffordable one changes nothing, though its start is still logged. */
  lemma StartPromotionOutcome(s: GameState, id: string, now: int)
    requires FindProduct(id).Some?
    ensures var r := Dispatched(s, StartPromotionEffect(s, id, now).action);
      if s.cash >= 200.0 then
        && r.cash == s.cash - 200.0
        && r.specialOffer == SpecialOffer(Some(id), Some(now + 30000))
        && r.offerCooldownUntil == Some(now + 90000)
        && r.offerCooldownUntil.value - r.specialOffer.expiresAt.value == 60000
      else r == s
  {
    SpecialOfferSteps(s, id, SpecialOfferCost, now + SpecialOfferDuration,
                      now + SpecialOfferDuration + SpecialOfferCooldown);
  }

  // ---- The storage limit ----

  /** Every stock is between 0 and the storage limit. */
  predicate StockWithinCap(s: GameState) {
    && Wellformed(s)
    && forall k :: k in s.inventory ==> 0 <= s.inventory[k] <= MaxInventory(s)
  }

  /** An action is admissible for the limit when a stock purchase is positive and fits. */
  predicate FitsCap(s: GameState, a: Action)
    requires Wellformed(s)
  {
    a.BuyStock? ==> a.quantity > 0 && StockOf(s.inventory, a.productId) + a.quantity <= MaxInventory(s)
  }

  /** The limit survives every admissible action: sales only lower stock, storage upgrades only raise the limit. */
  lemma StepKeepsCap(s: GameState, a: Action)
    requires StockWithinCap(s) && FitsCap(s, a)
    ensures StockWithinCap(Reduce(s, a))
  {
    StepKeepsWellformed(s, a);
    var r := Reduce(s, a);
    assert MaxInventory(r) >= MaxInventory(s) by {
      StepMonotone(s, a);
    }
    forall k | k in r.inventory ensures 0 <= r.inventory[k] <= MaxInventory(r) {
      if a.SellItem? && k == a.productId && r != s {
        assert r.inventory[k] == s.inventory[k] - 1;
      } else if a.BuyStock? && k == a.productId && r != s {
        assert r.inventory[k] == StockOf(s.inventory, k) + a.quantity;
      } else {
        assert k in s.inventory && r.inventory[k] == s.inventory[k];
      }
    }
  }

  /** A purchase let through by the row's guard, dispatched by `handleBuyStock`, fits the limit. */
  lemma RowPurchaseFitsCap(s: GameState, p: Product, quantity: int)
    requires Wellformed(s) && p in Products
    requires CanBuy(p, StockOf(s.inventory, p.id), MaxInventory(s), s.cash, quantity)
    ensures FindProduct(p.id) == Some(p)
    ensures BuyStockEffect(s, p.id, quantity).action == Some(BuyStock(p.id, quantity, TotalCost(p, quantity)))
    ensures FitsCap(s, BuyStockEffect(s, p.id, quantity).action.value)
  {
    var i :| 0 <= i < |Products| && Products[i] == p;
    FindProductAt(i);
  }

  // ---- The running game ----

  /** The game state and the customer-log feed, changed only through the handlers. */
  class Store {
    var state: GameState
    var logs: seq<LogEntry>

    ghost predicate Valid()
      reads this
    {
      Wellformed(state) && |logs| <= MaxLogs
    }

    constructor ()
      ensures Valid() && state == InitialState && logs == []
    {
      state := InitialState;
      logs := [];
    }

    /** `dispatch`. */
    method Dispatch(a: Action)
      requires Valid()
      modifies this
      ensures Valid() && state == Reduce(old(state), a) && logs == old(logs)
    {
      StepKeepsWellformed(state, a);
      state := Reduce(state, a);
    }

    /** `addLog`. */
    method AddLog(e: LogEntry)
      requires Valid()
      modifies this
      ensures Valid() && logs == PushLog(old(logs), e) && state == old(state)
    {
      logs := PushLog(logs, e);
    }

    method CustomerArrives(idx: nat)
      requires Valid() && idx < |Products|
      modifies this
      ensures Valid()
      ensures state == Dispatched(old(state), ArrivalEffect(old(state), idx).action)
      ensures logs == Logged(old(logs), ArrivalEffect(old(state), idx).log)
    {
      if state.isGameOver {
        return;
      }
      var p := Products[idx];
      if StockOf(state.inventory, p.id) > 0 {
        var isSpecial := state.specialOffer.productId == Some(p.id);
        var salePrice := SalePrice(state, p);
        Dispatch(SellItem(p.id, salePrice));
        AddLog(Sold(p.id, salePrice, isSpecial));
      } else {
        AddLog(OutOfStock(p.id));
      }
    }

    method OfferTick(now: int)
      requires Valid()
      modifies this
      ensures Valid()
      ensures state == Dispatched(old(state), OfferTickEffect(old(state), now).action)
      ensures logs == Logged(old(logs), OfferTickEffect(old(state), now).log)
    {
      var offer := state.specialOffer;
      if offer.expiresAt.Some? && offer.expiresAt.value != 0 && now > offer.expiresAt.value {
        var name := OfferedName(offer.productId);
        Dispatch(EndSpecialOffer);
        AddLog(OfferEnded(name));
      }
    }

    method GoalCheck()
      requires Valid()
      modifies this
      ensures Valid()
      ensures state == Dispatched(old(state), GoalCheckEffect(old(state)).action)
      ensures logs == Logged(old(logs), GoalCheckEffect(old(state)).log)
    {
      var goal := CurrentGoal(state);
      if goal.Some? && IsCompleted(state.currentGoalIndex, state) {
        AddLog(GoalAchieved(goal.value.description, goal.value.reward));
        Dispatch(CompleteGoal(goal.value.reward));
      }
    }

    method BankruptcyCheck()
      requires Valid()
      modifies this
      ensures Valid()
      ensures state == Dispatched(old(state), BankruptcyEffect(old(state)).action) && logs == old(logs)
    {
      if Bankrupt(state) {
        Dispatch(SetGameOver);
      }
    }

    /** `handleBuyStock`. */
    method HandleBuyStock(id: string, quantity: int)
      requires Valid() && FindProduct(id).Some?
      modifies this
      ensures Valid()
      ensures state == Dispatched(old(state), BuyStockEffect(old(state), id, quantity).action)
      ensures logs == Logged(old(logs), BuyStockEffect(old(state), id, quantity).log)
    {
      var product := FindProduct(id).value;
      var totalCost := TotalCost(product, quantity);
      if state.cash >= totalCost {
        Dispatch(BuyStock(id, quantity, totalCost));
      } else {
        AddLog(NoCashForStock);
      }
    }

    /** `handleBuyUpgrade`. */
    method HandleBuyUpgrade(kind: UpgradeKind)
      requires Valid()
      modifies this
      ensures Valid()
      ensures state == Dispatched(old(state), BuyUpgradeEffect(old(state), kind).action)
      ensures logs == Logged(old(logs), BuyUpgradeEffect(old(state), kind).log)
    {
      var currentLevel := LevelOf(state.upgrades, kind.Key());
      var cost := kind.Cost(currentLevel);
      if state.cash >= cost {
        Dispatch(BuyUpgrade(kind.Key(), cost));
      } else {
        AddLog(NoCashForUpgrade);
      }
    }

    /** `handleStartPromotion`. */
    method HandleStartPromotion(id: string, now: int)
      requires Valid() && FindProduct(id).Some?
      modifies this
      ensures Valid()
      ensures state == Dispatched(old(state), StartPromotionEffect(old(state), id, now).action)
      ensures logs == Logged(old(logs), StartPromotionEffect(old(state), id, now).log)
    {
      Dispatch(StartSpecialOffer(id, SpecialOfferCost, now + SpecialOfferDuration,
                                 now + SpecialOfferDuration + SpecialOfferCooldown));
      AddLog(OfferStarted(FindProduct(id).value.name));
    }

    /** The purchase dialog wired to `handleBuyStock`: the row is shown the product's stock, the
        storage limit and the cash, and a purchase it lets through keeps every stock within the limit. */
    method BuyFromRow(row: BuyItemRow)
      requires Valid() && row.Valid() && row.product in Products
      modifies this, row
      ensures Valid() && row.Valid()
      ensures StockWithinCap(old(state)) ==> StockWithinCap(state)
      ensures logs == old(logs)
      ensures row.quantity == if CanBuy(row.product, StockOf(old(state).inventory, row.product.id), MaxInventory(old(state)), old(state).cash, old(row.quantity))
                              then 1 else old(row.quantity)
      ensures state == if CanBuy(row.product, StockOf(old(state).inventory, row.product.id), MaxInventory(old(state)), old(state).cash, old(row.quantity))
                       then Reduce(old(state), BuyStock(row.product.id, old(row.quantity), TotalCost(row.product, old(row.quantity))))
                       else old(state)
    {
      var p := row.product;
      var bought := row.HandleBuy(StockOf(state.inventory, p.id), MaxInventory(state), state.cash);
      if bought.Some? {
        RowPurchaseFitsCap(state, p, bought.value);
        if StockWithinCap(state) {
          StepKeepsCap(state, BuyStock(p.id, bought.value, TotalCost(p, bought.value)));
        }
        HandleBuyStock(p.id, bought.value);
      }
    }
  }
}

# Retail tycoon game engine in Dafny

A model of the engine of a small retail-tycoon browser game. The player holds cash, buys stock of six
products, sells it to customers who arrive at a rate set by the marketing upgrade, buys storage and
marketing upgrades, runs timed special offers that sell one product at 1.5 times its price, and earns
rewards for six sales goals. The game ends when there is no cash, no stock and nothing is affordable.

The project has these modules:

- `Types` (types.dfy): the state, the actions and the log entries. It also spells out the
  JavaScript truthiness the game relies on:
  - an id counts as set when it is present and non-empty;
  - a timestamp counts as set when it is present and non-zero;
  - `inventory[id] || 0` and `upgrades[id] || 1` read a stock and a level.
- `Constants` (constants.dfy): the product catalogue, the upgrade cost and effect curves, the offer
  constants and the goal table.
- `Reducer` (reducer.dfy): `initialGameState` and `gameReducer`, as a total pure function.
  Lemmas describe each action and what any run of actions preserves.
- `Simulation` (simulation.dfy): the application shell. Each handler is described as an `Effect`,
  the action it dispatches and the log line it writes:
  - customer arrival;
  - the offer-expiry tick;
  - the goal check;
  - the bankruptcy check;
  - buying stock;
  - buying an upgrade;
  - starting a promotion.

  Class `Store` holds the state and the 20-entry log feed and carries out those effects.
- `BuyStock` (buy_stock.dfy): the purchase dialog. Class `BuyItemRow` keeps the typed quantity and
  guards `onBuy`. This guard is the only place the storage limit is enforced.
- `Promotions` (promotions.dfy): the promotion dialog. It holds the start predicate, the blocking
  reasons and the offer prices. The dialog is the only place the offer cooldown is enforced.
- `Header` (header.dfy): the `mm:ss` clock, the remaining seconds and the status priority.

Inputs from outside become parameters:
- `Date.now()` becomes `now` (milliseconds).
- `Math.random()` becomes the index of the chosen product.
- `parseInt` becomes its result (`None` for `NaN`).

Money is `real`, so an offer sale of milk adds exactly 7.5.

## Model

| member | source | states |
|---|---|---|
| Types.StockOf | components/BuyStockModal.tsx:75 | a product missing from the inventory has stock 0, otherwise its stored count |
| Types.LevelOf | App.tsx:188 | a missing or zero upgrade level reads as 1, a stored level of at least 1 as itself |
| Constants.FindProduct | constants.ts:7-14 | `PRODUCTS[id]` is a catalogue entry with that id, or absent when no entry has that id |
| Constants.FindProductAt | constants.ts:7-14 | looking up the id of the i-th catalogue entry finds exactly that entry (ids are distinct) |
| Constants.DistinctIds | constants.ts:8-13 | no two catalogue entries share an id |
| Constants.KnownIdNonEmpty | constants.ts:8-13 | every catalogue id is non-empty, so it counts as a set offer id |
| Constants.ProductMargins | constants.ts:8-13 | every product's price strictly exceeds its cost, every cost is at least 1, and the cheapest cost is 1 |
| Constants.PowStep | constants.ts:21 | `Math.pow(b, e + 1) == b * Math.pow(b, e)` for every integer exponent, negative ones included |
| Constants.StorageEffectCurve | constants.ts:4 | the storage limit is 50 at level 1 and grows by exactly 15 per level |
| Constants.StorageCostDoubles | constants.ts:21 | storage costs 100 at level 1 and exactly doubles with each level |
| Constants.MarketingCostGrows | constants.ts:28 | marketing costs 250 at level 1 and grows by a factor of exactly 2.5 per level |
| Constants.MarketingIntervalShrinks | constants.ts:29 | the customer interval is 5000 ms at level 1, stays positive and strictly decreases with each level |
| Constants.StorageCost | constants.ts:21 | `100 * Math.pow(2, level - 1)`; its growth is stated by StorageCostDoubles |
| Constants.StorageEffect | constants.ts:22 | `MAX_INVENTORY_BASE + (level - 1) * 15`; its growth is stated by StorageEffectCurve |
| Constants.MarketingCost | constants.ts:28 | `250 * Math.pow(2.5, level - 1)`; its growth is stated by MarketingCostGrows |
| Constants.MarketingEffect | constants.ts:29 | `CUSTOMER_ARRIVAL_BASE_SPEED / Math.pow(1.2, level - 1)`; its decrease is stated by MarketingIntervalShrinks |
| Constants.CurrentValue | constants.ts:45-85 | each goal's `getCurrentValue`, chosen by the quantity the goal measures |
| Constants.IsCompleted | constants.ts:46-86 | each goal's own `isCompleted` comparison; CompletedMeansTargetReached ties it to CurrentValue |
| Constants.OfferPrice | constants.ts:37 | an offer price is strictly above the regular price of any product with a positive price |
| Constants.CompletedMeansTargetReached | constants.ts:40-89 | each goal's `isCompleted` holds exactly when its `getCurrentValue` reaches its target |
| Constants.GoalsShape | constants.ts:40-89 | there are six goals, each with a positive reward |
| Reducer.Reduce | App.tsx:26-99 | `gameReducer`: game over never reverts and is set only by its own action, the goal index moves by exactly one only on a goal completion, and only an offer start changes the cooldown |
| Reducer.SellItemStep | App.tsx:28-48 | a sale of an unknown product or one out of stock changes nothing; otherwise it adds the price to cash, takes exactly one unit of that product, raises both counters and changes nothing else |
| Reducer.BuyStockStep | App.tsx:49-60 | a stock purchase is a no-op when unaffordable; otherwise it pays the cost (cash stays non-negative), sets the stock to old-or-0 plus the quantity and changes nothing else |
| Reducer.BuyUpgradeStep | App.tsx:61-72 | an upgrade purchase is a no-op when unaffordable; otherwise it pays the cost and raises exactly the named level by one (the first purchase gives 2) |
| Reducer.SpecialOfferSteps | App.tsx:73-85 | starting an offer sets product, expiry and cooldown together and pays the cost; ending one clears both offer fields and leaves the cooldown and everything else as it was |
| Reducer.UnconditionalSteps | App.tsx:86-97 | a goal completion pays the reward and advances the index by one; game over only sets its flag; an unknown action changes nothing |
| Reducer.StepMonotone | App.tsx:26-99 | one action never clears game over, never lowers a level or the items-sold counter, keeps cash and the earned counter non-negative when credits are, and moves the goal index only on a goal completion |
| Reducer.StepKeepsWellformed | App.tsx:26-99 | both known upgrades stay present with every level at least 1 |
| Reducer.RunMonotone | App.tsx:26-99 | over any sequence of actions, game over never reverts, levels and the items-sold counter never fall, the goal index rises by exactly the number of goal completions, and when every sale price and reward is non-negative the earned counter never falls and non-negative cash stays non-negative |
| Reducer.RunKeepsWellformed | App.tsx:26-99 | every run keeps both known upgrades present with levels of at least 1 |
| Reducer.RunKeepsOfferPaired | App.tsx:73-85 | over any run, the offer's product and expiry are either both present or both absent |
| Reducer.InitialStateWellformed | App.tsx:15-24 | the game starts with 500 in cash, no stock, both upgrades at level 1, no offer and no cooldown, not over, with zero counters and the first goal |
| Reducer.BuyThenSellScenario | App.tsx:28-59 | buying ten apples for 10 and selling one for 2 leaves 492 in cash and 9 apples; selling with 0 stock changes nothing |
| Reducer.OfferScenario | App.tsx:73-85 | an offer started at T costs 200, and ending it keeps the cooldown at T + 90000 |
| Reducer.ReducerDoesNotCap | App.tsx:49-59 | the reducer alone lets stock exceed the storage limit |
| BuyStock.TotalCost | components/BuyStockModal.tsx:24 | `product.cost * quantity`; PassedPurchaseFits states what a passed purchase costs |
| BuyStock.CanAfford | components/BuyStockModal.tsx:25 | `cash >= totalCost` |
| BuyStock.HasSpace | components/BuyStockModal.tsx:26 | `currentStock + quantity <= maxStock` |
| BuyStock.CanBuy | components/BuyStockModal.tsx:29 | the guard of `handleBuy`: affordable, fits and positive |
| BuyStock.RemainingSpace | components/BuyStockModal.tsx:53 | the room shown beside the quantity field, `maxStock - currentStock` |
| BuyStock.ParseQuantity | components/BuyStockModal.tsx:50 | the typed quantity is at least 1; a positive number is kept and anything else becomes 1 |
| BuyStock.PassedPurchaseFits | components/BuyStockModal.tsx:24-30 | a purchase the guard lets through is positive, fits in the displayed room, is paid for, and costs at least one per unit |
| BuyStock.BuyItemRow.constructor | components/BuyStockModal.tsx:23 | a row starts with quantity 1 |
| BuyStock.BuyItemRow.OnChange | components/BuyStockModal.tsx:50 | the field holds the parsed quantity, which is at least 1 |
| BuyStock.BuyItemRow.Disabled | components/BuyStockModal.tsx:58 | the Buy button is disabled exactly when the guard fails, that is, when the purchase is unaffordable or does not fit |
| BuyStock.BuyItemRow.HandleBuy | components/BuyStockModal.tsx:28-33 | `onBuy` gets the quantity exactly when the guard holds, and the field then resets to 1; otherwise nothing changes |
| Simulation.PushLog | App.tsx:113-115 | a new log entry goes first, the older entries follow in order, and the feed holds at most 20 |
| Simulation.FeedIsRecentHistory | App.tsx:113-115 | after any sequence of entries the feed holds the 20 most recent, newest first |
| Simulation.MaxInventory | App.tsx:109 | the storage limit per product, the storage curve at the current level |
| Simulation.CustomerInterval | App.tsx:110 | the time between customers, the marketing curve at the current level |
| Simulation.CurrentGoal | App.tsx:111 | there is a current goal exactly while the index is below 6, and it is the goal at that index |
| Simulation.SalePrice | App.tsx:125-126 | a customer pays 1.5 times the price for the product on offer and the list price for any other |
| Simulation.ArrivalEffect | App.tsx:117-138 | an arrival logs a line exactly when the game is not over and dispatches a sale exactly when, in addition, the product is in stock |
| Simulation.ArrivalOutcome | App.tsx:117-138 | a customer buys one unit of an in-stock product, at 1.5 times its price exactly when it is on offer; otherwise the state does not change |
| Simulation.OfferSaleEarnsMore | App.tsx:125-126 | a sale of the offered product earns 1.5 times its price, which is more than a regular sale |
| Simulation.OfferedName | App.tsx:146 | the name logged when an offer ends: the product's name when it is known, "the item" otherwise |
| Simulation.OfferTickEffect | App.tsx:144-149 | the offer tick writes a log line exactly when it acts, and its only action is to end the offer |
| Simulation.OfferTickOutcome | App.tsx:144-149 | the tick ends the offer exactly when its expiry is set and passed; ending clears the offer and keeps the cooldown; otherwise nothing changes |
| Simulation.OfferTickSettles | App.tsx:144-149 | after a tick that ended the offer, no later tick acts; after one that did not, a later tick acts as it would have before |
| Simulation.GoalCheckEffect | App.tsx:159-164 | the goal check logs exactly when it dispatches |
| Simulation.GoalCheckOutcome | App.tsx:159-164 | a goal completion fires exactly when the current goal's value reaches its target; it pays exactly that goal's reward and moves to the next goal; past the last goal nothing fires |
| Simulation.Bankrupt | App.tsx:169-171 | the game-over condition: no cash, no positive stock and no product affordable |
| Simulation.BankruptcyEffect | App.tsx:168-174 | the game-over check never logs, and its only action is to end the game |
| Simulation.BankruptcyIsNoCashNoStock | App.tsx:168-174 | bankruptcy holds exactly when cash is at most 0 and no stock is positive, and the check then ends the game |
| Simulation.BankruptcyScenarios | App.tsx:168-174 | at 0 cash with no stock the game is bankrupt; one unit of stock or any cash prevents it |
| Simulation.BuyStockEffect | App.tsx:176-184 | a stock purchase is dispatched exactly when the cash covers its total cost, carrying the product, the quantity and that total cost; otherwise nothing is dispatched and the cash shortage is logged |
| Simulation.BuyUpgradeEffect | App.tsx:186-195 | an upgrade purchase is dispatched exactly when the cash covers the cost at the current level (a missing level counts as 1), and otherwise the shortage is logged |
| Simulation.BuyUpgradeOutcome | App.tsx:186-195 | a bought upgrade raises its level by one at the curve's price; storage then holds 15 more per product, and marketing makes customers arrive strictly more often |
| Simulation.StartPromotionEffect | App.tsx:197-210 | starting a promotion always dispatches a start and logs it under the product's name |
| Simulation.StartPromotionOutcome | App.tsx:197-210 | an affordable promotion runs for 30 s and sets the cooldown 60 s after it ends; an unaffordable one changes nothing |
| Simulation.StepKeepsCap | App.tsx:26-99 | every action keeps all stock between 0 and the storage limit when stock purchases are positive and fit |
| Simulation.RowPurchaseFitsCap | App.tsx:176-180 | a purchase let through by the row's guard is dispatched unchanged and fits the limit |
| Simulation.Store.constructor | App.tsx:102-107 | the game starts in the initial state with an empty feed |
| Simulation.Store.Dispatch | App.tsx:102 | the state becomes the reducer's result and the feed is unchanged |
| Simulation.Store.AddLog | App.tsx:113-115 | the feed becomes the pushed feed and the state is unchanged |
| Simulation.Store.CustomerArrives | App.tsx:117-138 | state and feed change exactly as the arrival effect says |
| Simulation.Store.OfferTick | App.tsx:144-149 | state and feed change exactly as the offer tick says |
| Simulation.Store.GoalCheck | App.tsx:159-164 | state and feed change exactly as the goal check says |
| Simulation.Store.BankruptcyCheck | App.tsx:168-174 | the state changes exactly as the bankruptcy check says, and the feed is unchanged |
| Simulation.Store.HandleBuyStock | App.tsx:176-184 | state and feed change exactly as the stock-purchase handler says |
| Simulation.Store.HandleBuyUpgrade | App.tsx:186-195 | state and feed change exactly as the upgrade handler says |
| Simulation.Store.HandleStartPromotion | App.tsx:197-210 | state and feed change exactly as the promotion handler says |
| Simulation.Store.BuyFromRow | components/BuyStockModal.tsx:28-31 | a purchase through the dialog row dispatches exactly when the row's guard holds, then resets the row's quantity to 1 (otherwise the quantity stays), and keeps every stock within the storage limit |
| Header.FormatTime | components/Header.tsx:13-17 | `formatTime`; FormatTimeRoundTrip states its shape and that it reads back as its input |
| Header.DecimalString | components/Header.tsx:14-15 | `n.toString()` is one or more digits, one digit exactly below 10 and at most two below 100 |
| Header.ParseDecimalString | components/Header.tsx:14-15 | the digits of a number read back as that number |
| Header.LeadingZero | components/Header.tsx:14-15 | a leading `0` does not change the value of a digit string |
| Header.PaddedNumber | components/Header.tsx:14-15 | a padded number has at least two digits, exactly two below 100, and reads back as the number |
| Header.FormatTimeRoundTrip | components/Header.tsx:13-17 | the clock is the minutes, a colon and two-digit seconds 00 to 59; it reads back as the input; it is exactly five characters below 6000 seconds |
| Header.RemainingSeconds | components/Header.tsx:27-28 | remaining time is 0 without a timestamp, never negative, positive exactly from 500 ms before the deadline, and within half a second of the true difference |
| Header.OfferProductName | components/Header.tsx:29 | the name of the offered product, empty when no offer is set or the product is unknown |
| Header.RenderStatus | components/Header.tsx:31-53 | the offer countdown, with the offered product's name, shows whenever offer time remains; otherwise the cooldown countdown shows whenever cooldown time remains; otherwise "available" |
| Header.StatusTimeline | components/Header.tsx:27-53 | for an offer started at T, the offer countdown shows until T + 29.5 s, running exactly 60 s behind the cooldown; the cooldown countdown shows until T + 89.5 s, then "available" |
| Promotions.CanStartPromotion | components/PromotionsModal.tsx:48 | `canStartPromotion`: cash of at least 200, no offer set, and no cooldown set or one already passed |
| Promotions.BlockingReasons | components/PromotionsModal.tsx:62-66 | "not enough cash" shows exactly when cash is below 200; "already active" shows exactly when an offer is set; the cooldown message shows exactly while a cooldown is pending with no offer; none shows when starting is allowed |
| Promotions.SilentRefusal | components/PromotionsModal.tsx:48-66 | starting is refused with no reason shown exactly when cash suffices, no offer runs and `now` equals the cooldown's end |
| Promotions.PromotionRows | components/PromotionsModal.tsx:15-77 | there is one row per product, each priced at 1.5 times the product's price, and all share the disabled flag `!canStartPromotion` |
| Promotions.EndedOfferWaitsForCooldown | components/PromotionsModal.tsx:48 | after an offer ends with a cooldown set, starting is allowed exactly once the cooldown has passed and the cash suffices |
| Promotions.PromotionCycle | components/PromotionsModal.tsx:48 | while an offer started at T runs, no other can start; after it ends, one can start exactly after T + 90 s when the cash allows |
| Promotions.HeaderAheadOfDialog | components/PromotionsModal.tsx:48 | with no offer running, the header already says "available" in the last half second of the cooldown while the dialog still refuses; after the cooldown both agree |

## Left out

- Rendering: the JSX of every component, the modal windows, the game-over screen and its reload. These are presentation only.
- Log entries are modelled as tagged values. Their wording, emoji, `toFixed` amounts and `Date.now()` ids are left out.
- The assistant dialog and its text-generation service are left out. They are a call to a foreign API.
- Timers are left out: `setInterval` scheduling, effect dependencies and stale closures. The methods of `Store` are what one timer tick or one effect run does, and `now` and the product index are passed in.
- Floating point is left out. Money and the upgrade curves are exact reals, so rounding in `price * 1.5` or `Math.pow` is not modelled.
- The marketing upgrade's description string is left out, since it is display only.
- Simulation.MaxInventory and Simulation.CustomerInterval require both upgrade levels to be present. The source would compute `NaN` from an absent level, but `Reducer.RunKeepsWellformed` shows that the levels never go missing.
- Constants.CurrentValue: an absent marketing level reads as 0 rather than `undefined`. Either way the goal is not completed.
- Header.RenderStatus: when the offered product is unknown, the name shown is the empty string, where the source renders `undefined` as nothing.
- Simulation.BuyStockEffect and Simulation.StartPromotionEffect require a catalogue product. The source reads `PRODUCTS[id].cost` and `PRODUCTS[id].name` and would throw on an unknown id, but the dialogs only offer catalogue products.
- Buying an upgrade is modelled only for the two upgrades the game defines (`UpgradeKind`). The source would fail on any other id, since `UPGRADES[id]` is undefined.

## Notes

- With zero cash, no stock and a cheapest product costing 1, `canAffordAnything` is false, so the game does end (`Simulation.BankruptcyScenarios`).
- The offer cooldown is checked only by the promotion dialog. The reducer and the start handler do not check it, so `Simulation.StartPromotionOutcome` starts an offer whenever 200 is affordable.
- The storage limit is checked only by the purchase dialog (`Reducer.ReducerDoesNotCap`). `Simulation.Store.BuyFromRow` shows that purchases through the dialog keep every stock within the limit.
- At the instant the cooldown ends, the dialog refuses to start and shows no reason (`Promotions.SilentRefusal`). For the half second before that, the header already says "available" (`Promotions.HeaderAheadOfDialog`).

/** The records of the game: products, the game state, the actions the reducer
    understands and the entries of the customer log feed (types.ts).  Money is a
    `real` (an offer sale is charged at 1.5 times the list price), timestamps are
    whole milliseconds. */
module Types {

  datatype Option<+T> = None | Some(value: T)

  /** A product of the catalogue; `emoji` is display only and left out. */
  datatype Product = Product(id: string, name: string, cost: int, price: int)

  /** The active promotion: both fields set while an offer runs, both unset otherwise. */
  datatype SpecialOffer = SpecialOffer(productId: Option<string>, expiresAt: Option<int>)

  datatype Stats = Stats(totalItemsSold: nat, totalCashEarned: real)

  datatype GameState = GameState(
    cash: real,
    inventory: map<string, int>,
    upgrades: map<string, int>,
    isGameOver: bool,
    specialOffer: SpecialOffer,
    offerCooldownUntil: Option<int>,
    stats: Stats,
    currentGoalIndex: nat)

  /** The seven actions of the reducer, plus any other tag it may be handed. */
  datatype Action =
    | SellItem(productId: string, salePrice: real)
    | BuyStock(productId: string, quantity: int, cost: real)
    | BuyUpgrade(upgradeId: string, cost: real)
    | SetGameOver
    | StartSpecialOffer(productId: string, cost: real, expiresAt: int, cooldownUntil: int)
    | EndSpecialOffer
    | CompleteGoal(reward: real)
    | Unrecognized(tag: string)

  /** What a log line reports; its wording, emoji and `Date.now()` id are left out. */
  datatype LogEntry =
    | Sold(productId: string, salePrice: real, onSale: bool)
    | OutOfStock(productId: string)
    | OfferEnded(productName: string)
    | GoalAchieved(description: string, reward: real)
    | OfferStarted(productName: string)
    | NoCashForStock
    | NoCashForUpgrade

  /** A product id is truthy in JavaScript when it is neither null nor "". */
  predicate IdSet(id: Option<string>) {
    id.Some? && id.value != ""
  }

  /** A timestamp is truthy in JavaScript when it is neither null nor 0. */
  predicate TimeSet(t: Option<int>) {
    t.Some? && t.value != 0
  }

  /** `inventory[id] || 0`: an absent product has no stock. */
  function StockOf(inventory: map<string, int>, id: string): (n: int)
    ensures id !in inventory ==> n == 0
    ensures id in inventory ==> n == inventory[id]
  {
    if id in inventory then inventory[id] else 0
  }

  /** `upgrades[id] || 1`: an absent (or zero) level reads as level 1. */
  function LevelOf(upgrades: map<string, int>, id: string): (l: int)
    ensures id !in upgrades ==> l == 1
    ensures id in upgrades && upgrades[id] >= 1 ==> l == upgrades[id]
    ensures id in upgrades && upgrades[id] == 0 ==> l == 1
  {
    if id in upgrades && upgrades[id] != 0 then upgrades[id] else 1
  }
}

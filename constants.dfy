/** The static tables of the game (constants.ts): the product catalogue, the two
    upgrade curves, the special-offer constants and the ordered goal list. */
module Constants {
  import opened Types

  const InitialCash: real := 500.0
  const MaxInventoryBase: int := 50
  /** Milliseconds between customers at marketing level 1. */
  const CustomerArrivalBaseSpeed: real := 5000.0

  /** The catalogue, in the key order of its record. */
  const Products: seq<Product> := [
    Product("apple", "Apples", 1, 2),
    Product("bread", "Bread", 2, 4),
    Product("milk", "Milk", 3, 5),
    Product("cheese", "Cheese", 5, 8),
    Product("chicken", "Chicken", 8, 13),
    Product("sushi", "Sushi", 12, 20)
  ]

  /** `PRODUCTS[id]`: the catalogue entry with that id, if any. */
  function FindProduct(id: string): (r: Option<Product>)
    ensures r.Some? ==> r.value in Products && r.value.id == id
    ensures r.None? ==> forall p :: p in Products ==> p.id != id
  {
    FindIn(Products, id)
  }

  function FindIn(ps: seq<Product>, id: string): (r: Option<Product>)
    ensures r.Some? ==> r.value in ps && r.value.id == id
    ensures r.None? ==> forall p :: p in ps ==> p.id != id
  {
    if ps == [] then None
    else if ps[0].id == id then Some(ps[0])
    else FindIn(ps[1..], id)
  }

  /** A catalogue id is never empty, so it always counts as set. */
  lemma KnownIdNonEmpty(id: string)
    requires FindProduct(id).Some?
    ensures id != ""
  {
    ProductMargins();
    assert FindProduct(id).value in Products;
  }

  /** No two catalogue entries share an id. */
  lemma DistinctIds()
    ensures forall i, j :: 0 <= i < j < |Products| ==> Products[i].id != Products[j].id
  {
    assert Products[0].id[0] == 'a' && Products[1].id[0] == 'b' && Products[2].id[0] == 'm';
    assert Products[3].id[0] == 'c' && Products[3].id[2] == 'e';
    assert Products[4].id[0] == 'c' && Products[4].id[2] == 'i';
    assert Products[5].id[0] == 's';
  }

  /** Looking up the id of a catalogue entry finds that entry. */
  lemma FindProductAt(i: nat)
    requires i < |Products|
    ensures FindProduct(Products[i].id) == Some(Products[i])
  {
    DistinctIds();
    var id := Products[i].id;
    var k := 0;
    while k < i
      invariant k <= i
      invariant FindIn(Products, id) == FindIn(Products[k..], id)
    {
      assert Products[k].id != id;
      assert Products[k..][1..] == Products[k + 1..];
      k := k + 1;
    }
    assert Products[i..][0] == Products[i];
  }

  /** Every product sells for more than it costs, nothing costs less than 1, and no id is empty. */
  lemma ProductMargins()
    ensures forall p :: p in Products ==> 1 <= p.cost < p.price && p.id != ""
    ensures exists p :: p in Products && p.cost == 1
  {
    assert Products[0].cost == 1;
  }

  // ---- Upgrades ----

  /** b raised to a natural power. */
  function NatPow(b: real, e: nat): (r: real)
    requires b > 0.0
    ensures r > 0.0
    ensures b >= 1.0 ==> r >= 1.0
  {
    if e == 0 then 1.0 else b * NatPow(b, e - 1)
  }

  /** `Math.pow(b, e)` for a positive base and a whole exponent. */
  function Pow(b: real, e: int): (r: real)
    requires b > 0.0
    ensures r > 0.0
  {
    if e >= 0 then NatPow(b, e) else 1.0 / NatPow(b, -e)
  }

  lemma {:induction false} PowStep(b: real, e: int)
    requires b > 0.0
    ensures Pow(b, e + 1) == b * Pow(b, e)
  {
    if e < 0 {
      var q := NatPow(b, -e - 1);
      assert NatPow(b, -e) == b * q;
      assert Pow(b, e) == 1.0 / (b * q);
      assert Pow(b, e + 1) == 1.0 / q;
      calc {
        b * Pow(b, e);
        b * (1.0 / (b * q));
        1.0 / q;
      }
    }
  }

  datatype UpgradeKind = Storage | Marketing {
    /** The key of the upgrade in `GameState.upgrades`. */
    function Key(): string {
      match this
      case Storage => "storage"
      case Marketing => "marketing"
    }

    /** The price of buying the next level from `level`. */
    function Cost(level: int): real {
      match this
      case Storage => StorageCost(level)
      case Marketing => MarketingCost(level)
    }
  }

  function StorageCost(level: int): real {
    100.0 * Pow(2.0, level - 1)
  }

  /** Maximum stock per product at a storage level. */
  function StorageEffect(level: int): int {
    MaxInventoryBase + (level - 1) * 15
  }

  function MarketingCost(level: int): real {
    250.0 * Pow(2.5, level - 1)
  }

  /** Milliseconds between customer arrivals at a marketing level. */
  function MarketingEffect(level: int): real {
    CustomerArrivalBaseSpeed / Pow(1.2, level - 1)
  }

  /** The storage curve: 50 slots at level 1, 15 more per level. */
  lemma StorageEffectCurve(level: int)
    ensures StorageEffect(1) == 50
    ensures StorageEffect(level + 1) == StorageEffect(level) + 15
    ensures level >= 1 ==> StorageEffect(level) >= 50
  {
  }

  /** Storage costs 100 at level 1 and doubles with every level. */
  lemma StorageCostDoubles(level: int)
    ensures StorageCost(1) == 100.0
    ensures StorageCost(level + 1) == 2.0 * StorageCost(level)
  {
    PowStep(2.0, level - 1);
  }

  /** Marketing costs 250 at level 1 and grows by a factor 2.5 with every level. */
  lemma MarketingCostGrows(level: int)
    ensures MarketingCost(1) == 250.0
    ensures MarketingCost(level + 1) == 2.5 * MarketingCost(level)
  {
    PowStep(2.5, level - 1);
  }

  /** Customers arrive every 5000 ms at level 1, strictly more often at every higher level. */
  lemma MarketingIntervalShrinks(level: int)
    ensures MarketingEffect(1) == 5000.0
    ensures 0.0 < MarketingEffect(level + 1) < MarketingEffect(level)
  {
    var x := Pow(1.2, level - 1);
    PowStep(1.2, level - 1);
    assert Pow(1.2, level) == 1.2 * x;
    var before := 5000.0 / x;
    assert MarketingEffect(level + 1) == 5000.0 / (1.2 * x);
    assert 5000.0 / (1.2 * x) == before / 1.2;
  }

  // ---- Special offers ----

  const SpecialOfferCost: real := 200.0
  const SpecialOfferDuration: int := 30000
  const SpecialOfferCooldown: int := 60000
  const SpecialOfferPriceMultiplier: real := 1.5

  /** The price of a product while it is on offer. */
  function OfferPrice(p: Product): (r: real)
    ensures p.price > 0 ==> r > p.price as real
    ensures p.price == 0 ==> r == 0.0
  {
    p.price as real * SpecialOfferPriceMultiplier
  }

  // ---- Goals ----

  /** The quantity a goal measures. */
  datatype Metric = TotalCashEarned | TotalItemsSold | MarketingLevel | Cash

  datatype Goal = Goal(description: string, reward: real, target: real, metric: Metric)

  const Goals: seq<Goal> := [
    Goal("Earn your first $1,000", 250.0, 1000.0, TotalCashEarned),
    Goal("Sell 50 total items", 500.0, 50.0, TotalItemsSold),
    Goal("Purchase your first Marketing upgrade", 750.0, 2.0, MarketingLevel),
    Goal("Reach $5,000 cash on hand", 1000.0, 5000.0, Cash),
    Goal("Sell 250 total items", 1500.0, 250.0, TotalItemsSold),
    Goal("Become a Tycoon (Reach $20,000 cash)", 5000.0, 20000.0, Cash)
  ]

  /** A goal's `getCurrentValue`; a missing marketing level reads as 0. */
  function CurrentValue(g: Goal, s: GameState): real {
    match g.metric
    case TotalCashEarned => s.stats.totalCashEarned
    case TotalItemsSold => s.stats.totalItemsSold as real
    case MarketingLevel => if "marketing" in s.upgrades then s.upgrades["marketing"] as real else 0.0
    case Cash => s.cash
  }

  /** Each goal's own `isCompleted` predicate, as the table writes it. */
  predicate IsCompleted(i: nat, s: GameState)
    requires i < |Goals|
  {
    match i
    case 0 => s.stats.totalCashEarned >= 1000.0
    case 1 => s.stats.totalItemsSold >= 50
    case 2 => "marketing" in s.upgrades && s.upgrades["marketing"] >= 2
    case 3 => s.cash >= 5000.0
    case 4 => s.stats.totalItemsSold >= 250
    case _ => s.cash >= 20000.0
  }

  /** Every goal is completed exactly when its current value reaches its target. */
  lemma CompletedMeansTargetReached(i: nat, s: GameState)
    requires i < |Goals|
    ensures IsCompleted(i, s) <==> CurrentValue(Goals[i], s) >= Goals[i].target
  {
  }

  /** Six goals, each paying a positive reward. */
  lemma GoalsShape()
    ensures |Goals| == 6
    ensures forall g :: g in Goals ==> g.reward > 0.0
  {
  }
}

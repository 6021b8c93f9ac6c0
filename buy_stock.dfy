/** The purchase dialog (components/BuyStockModal.tsx).  Each catalogue row keeps
    the quantity the player typed and only passes a purchase on when it is
    affordable, fits under the storage limit and is positive; this is the only
    place the storage limit is enforced. */
module BuyStock {
  import opened Types
  import opened Constants

  function TotalCost(p: Product, quantity: int): real {
    (p.cost * quantity) as real
  }

  predicate CanAfford(cash: real, p: Product, quantity: int) {
    cash >= TotalCost(p, quantity)
  }

  predicate HasSpace(currentStock: int, quantity: int, maxStock: int) {
    currentStock + quantity <= maxStock
  }

  /** The test `handleBuy` makes before passing the purchase on. */
  predicate CanBuy(p: Product, currentStock: int, maxStock: int, cash: real, quantity: int) {
    CanAfford(cash, p, quantity) && HasSpace(currentStock, quantity, maxStock) && quantity > 0
  }

  /** The room shown beside the quantity field. */
  function RemainingSpace(currentStock: int, maxStock: int): int {
    maxStock - currentStock
  }

  /** `Math.max(1, parseInt(value) || 1)`, given what `parseInt` returned (None for NaN). */
  function ParseQuantity(parsed: Option<int>): (q: int)
    ensures q >= 1
    ensures parsed.Some? && parsed.value >= 1 ==> q == parsed.value
    ensures parsed.None? || parsed.value < 1 ==> q == 1
  {
    var v := if parsed.Some? && parsed.value != 0 then parsed.value else 1;
    if v > 1 then v else 1
  }

  lemma UnitsCostAtLeastOne(cost: int, quantity: int)
    requires cost >= 1 && quantity >= 1
    ensures cost * quantity >= quantity
  {
  }

  /** A purchase the row lets through is paid for, positive and fits in the room shown. */
  lemma PassedPurchaseFits(p: Product, currentStock: int, maxStock: int, cash: real, quantity: int)
    requires CanBuy(p, currentStock, maxStock, cash, quantity)
    ensures 1 <= quantity <= RemainingSpace(currentStock, maxStock)
    ensures cash - TotalCost(p, quantity) >= 0.0
    ensures p in Products ==> TotalCost(p, quantity) >= quantity as real
  {
    if p in Products {
      ProductMargins();
      assert p.cost >= 1;
      UnitsCostAtLeastOne(p.cost, quantity);
    }
  }

  /** One row of the dialog: a product and the quantity typed for it. */
  class BuyItemRow {
    const product: Product
    var quantity: int

    ghost predicate Valid()
      reads this
    {
      quantity >= 1
    }

    constructor (p: Product)
      ensures Valid() && product == p && quantity == 1
    {
      product := p;
      quantity := 1;
    }

    /** The quantity field's change handler. */
    method OnChange(parsed: Option<int>)
      requires Valid()
      modifies this
      ensures Valid() && quantity == ParseQuantity(parsed)
    {
      quantity := ParseQuantity(parsed);
    }

    /** The Buy button's `disabled` flag; with a valid row only cash and room can disable it. */
    method Disabled(currentStock: int, maxStock: int, cash: real) returns (disabled: bool)
      requires Valid()
      ensures disabled == !CanBuy(product, currentStock, maxStock, cash, quantity)
      ensures disabled <==> !CanAfford(cash, product, quantity) || !HasSpace(currentStock, quantity, maxStock)
    {
      disabled := !CanAfford(cash, product, quantity) || !HasSpace(currentStock, quantity, maxStock) || quantity <= 0;
    }

    /** `handleBuy`: returns the quantity handed to `onBuy`, if any, and then resets the field to 1. */
    method HandleBuy(currentStock: int, maxStock: int, cash: real) returns (bought: Option<int>)
      requires Valid()
      modifies this
      ensures Valid()
      ensures bought == if CanBuy(product, currentStock, maxStock, cash, old(quantity)) then Some(old(quantity)) else None
      ensures quantity == if bought.Some? then 1 else old(quantity)
    {
      if CanAfford(cash, product, quantity) && HasSpace(currentStock, quantity, maxStock) && quantity > 0 {
        bought := Some(quantity);
        quantity := 1;
      } else {
        bought := None;
      }
    }
  }
}

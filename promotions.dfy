/** The promotion dialog (components/PromotionsModal.tsx): whether a special offer may
    be started now, which reasons are shown when it may not, and the rows of
    products with their offer prices.  This dialog is the only place the offer
    cooldown is enforced. */
module Promotions {
  import opened Types
  import opened Constants
  import opened Reducer
  import opened Simulation
  import opened Header

  /** `canStartPromotion`: enough cash, no offer running, and no cooldown or a cooldown already passed. */
  predicate CanStartPromotion(s: GameState, now: int) {
    && s.cash >= SpecialOfferCost
    && !IdSet(s.specialOffer.productId)
    && (!TimeSet(s.offerCooldownUntil) || now > s.offerCooldownUntil.value)
  }

  datatype Reason = NotEnoughCash | AlreadyActive | OnCooldown

  /** The messages in the red box, shown only while starting is not allowed. */
  function BlockingReasons(s: GameState, now: int): (r: seq<Reason>)
    ensures CanStartPromotion(s, now) ==> r == []
    ensures NotEnoughCash in r <==> s.cash < SpecialOfferCost
    ensures AlreadyActive in r <==> IdSet(s.specialOffer.productId)
    ensures OnCooldown in r <==>
      TimeSet(s.offerCooldownUntil) && now < s.offerCooldownUntil.value && !IdSet(s.specialOffer.productId)
  {
    if CanStartPromotion(s, now) then []
    else
      (if s.cash < SpecialOfferCost then [NotEnoughCash] else [])
      + (if IdSet(s.specialOffer.productId) then [AlreadyActive] else [])
      + (if TimeSet(s.offerCooldownUntil) && now < s.offerCooldownUntil.value && !IdSet(s.specialOffer.productId)
         then [OnCooldown] else [])
  }

  /** Starting is refused without any reason shown exactly at the instant the cooldown ends. */
  lemma SilentRefusal(s: GameState, now: int)
    ensures !CanStartPromotion(s, now) && BlockingReasons(s, now) == [] <==>
      && s.cash >= SpecialOfferCost && !IdSet(s.specialOffer.productId)
      && TimeSet(s.offerCooldownUntil) && now == s.offerCooldownUntil.value
  {
    var r := BlockingReasons(s, now);
    if !CanStartPromotion(s, now) && r == [] {
      assert NotEnoughCash !in r && AlreadyActive !in r && OnCooldown !in r;
    }
  }

  /** One product row: its offer price and the Start button's `disabled` flag. */
  datatype Row = Row(product: Product, offerPrice: real, disabled: bool)

  function PromotionRows(s: GameState, now: int): (rows: seq<Row>)
    ensures |rows| == |Products|
    ensures forall i :: 0 <= i < |rows| ==>
      && rows[i].product == Products[i]
      && rows[i].offerPrice == 1.5 * Products[i].price as real
      && rows[i].disabled == !CanStartPromotion(s, now)
  {
    seq(|Products|, i requires 0 <= i < |Products| => Row(Products[i], OfferPrice(Products[i]), !CanStartPromotion(s, now)))
  }

  /** Ending an offer leaves the cooldown `c` in force: starting is allowed again exactly after `c`. */
  lemma EndedOfferWaitsForCooldown(r: GameState, c: int, now: int)
    requires r.offerCooldownUntil == Some(c) && c != 0
    ensures var ended := Reduce(r, EndSpecialOffer);
      && ended.cash == r.cash
      && (CanStartPromotion(ended, now) <==> now > c && ended.cash >= SpecialOfferCost)
  {
    var ended := Reduce(r, EndSpecialOffer);
    assert ended.cash == r.cash && ended.offerCooldownUntil == Some(c);
    assert !IdSet(ended.specialOffer.productId);
  }

  /** Once an offer started at `t` has been started and then ended, the next one can start exactly
      when the cooldown has passed (90 s after `t`) and the cash allows it; while it runs, none can. */
  lemma PromotionCycle(s: GameState, id: string, t: nat, now: int)
    requires FindProduct(id).Some? && s.cash >= SpecialOfferCost
    ensures var running := Dispatched(s, StartPromotionEffect(s, id, t).action);
      && !CanStartPromotion(running, now)
      && var ended := Reduce(running, EndSpecialOffer);
      && (CanStartPromotion(ended, now) <==> now > t + 90000 && ended.cash >= SpecialOfferCost)
  {
    KnownIdNonEmpty(id);
    var a := StartSpecialOffer(id, SpecialOfferCost, t + 30000, t + 90000);
    assert StartPromotionEffect(s, id, t).action == Some(a);
    SpecialOfferSteps(s, id, SpecialOfferCost, t + 30000, t + 90000);
    var running := Reduce(s, a);
    assert IdSet(running.specialOffer.productId);
    EndedOfferWaitsForCooldown(running, t + 90000, now);
    assert Dispatched(s, StartPromotionEffect(s, id, t).action) == running;
  }

  /** With no offer running and enough cash, the header already says "available" during the
      last half second of the cooldown, while the dialog still refuses to start. */
  lemma HeaderAheadOfDialog(s: GameState, now: int)
    requires s.cash >= SpecialOfferCost && s.specialOffer == SpecialOffer(None, None)
    requires TimeSet(s.offerCooldownUntil)
    ensures s.offerCooldownUntil.value - 500 < now <= s.offerCooldownUntil.value ==>
      RenderStatus(s.specialOffer, s.offerCooldownUntil, now) == Available && !CanStartPromotion(s, now)
    ensures now > s.offerCooldownUntil.value ==>
      RenderStatus(s.specialOffer, s.offerCooldownUntil, now) == Available && CanStartPromotion(s, now)
  {
  }
}

/** `apply_discounts` of payments/services.py. The Promotion model is not
    part of this model's sources; its fields are the ones the function
    reads. Money is exact (`real`). An unset or zero optional field is
    falsy in the source, so an empty string or 0 stands for "not set".
    The weekday name of the showing's date and the number of days from
    today to it are inputs. */
module Payments {
  import opened Wrappers

  datatype Promotion = Promotion(
    active: bool,
    applicableDay: string,      // `strftime('%A')` name, "" when unset
    discountType: string,       // "2x1" or "percentage"
    cardType: string,           // "" when unset
    discountValue: real,        // a percentage
    daysBeforeFunction: int,    // 0 when unset
    minTickets: int)            // 0 when unset

  /** What `apply_discounts` reads from the booking and the request. */
  datatype Purchase = Purchase(
    totalPrice: real,
    functionPrice: real,
    weekday: string,
    ticketCount: nat,
    daysBefore: int,
    cardType: Option<string>)

  /** `Promotion.objects.filter(active=True)`, in table order. */
  function ActivePromotions(ps: seq<Promotion>): (r: seq<Promotion>)
    ensures forall p :: p in r <==> p in ps && p.active
    ensures r != [] ==> exists i :: 0 <= i < |ps| && ps[i] == r[0] && forall j :: 0 <= j < i ==> !ps[j].active
    ensures r == [] ==> forall i :: 0 <= i < |ps| ==> !ps[i].active
  {
    if ps == [] then []
    else if ps[0].active then [ps[0]] + ActivePromotions(ps[1..])
    else
      var rest := ActivePromotions(ps[1..]);
      assert rest != [] ==> ps[1..][0] in ps[1..];
      if rest != [] then
        var i :| 0 <= i < |ps[1..]| && ps[1..][i] == rest[0] && forall j :: 0 <= j < i ==> !ps[1..][j].active;
        assert ps[i + 1] == rest[0];
        assert forall j :: 0 < j < i + 1 ==> !ps[j].active by {
          forall j | 0 < j < i + 1 ensures !ps[j].active {
            assert ps[j] == ps[1..][j - 1];
          }
        }
        rest
      else
        assert forall i :: 0 < i < |ps| ==> ps[i] == ps[1..][i - 1];
        rest
  }

  /** `total - total * (discount_value / 100)`. */
  function Percent(total: real, promo: Promotion): real {
    total - total * (promo.discountValue / 100.0)
  }

  predicate IsPercentage(promo: Promotion) {
    promo.discountType == "percentage"
  }

  /** Rule 1: a 2x1 on the promotion's weekday with at least two tickets
      takes one showing price off. */
  function TwoForOne(total: real, promo: Promotion, b: Purchase): (r: real)
    ensures r == total || r == total - b.functionPrice
    ensures b.functionPrice != 0.0 ==> (r == total - b.functionPrice <==>
      promo.applicableDay != "" && b.weekday == promo.applicableDay && promo.discountType == "2x1" && b.ticketCount >= 2)
  {
    if promo.applicableDay != "" && b.weekday == promo.applicableDay && promo.discountType == "2x1" && b.ticketCount >= 2
    then total - b.functionPrice
    else total
  }

  /** Rule 2: a percentage off for the promotion's card type. */
  function CardDiscount(total: real, promo: Promotion, b: Purchase): (r: real)
    ensures r == total || r == Percent(total, promo)
    ensures promo.cardType == "" || b.cardType != Some(promo.cardType) || !IsPercentage(promo) ==> r == total
    ensures promo.cardType != "" && b.cardType == Some(promo.cardType) && IsPercentage(promo) ==> r == Percent(total, promo)
  {
    if promo.cardType != "" && b.cardType == Some(promo.cardType) && IsPercentage(promo) then Percent(total, promo)
    else total
  }

  /** Rule 3: a percentage off when bought at least `days_before_function` ahead. */
  function EarlyDiscount(total: real, promo: Promotion, b: Purchase): (r: real)
    ensures r == total || r == Percent(total, promo)
    ensures promo.daysBeforeFunction == 0 || b.daysBefore < promo.daysBeforeFunction || !IsPercentage(promo) ==> r == total
    ensures promo.daysBeforeFunction != 0 && b.daysBefore >= promo.daysBeforeFunction && IsPercentage(promo) ==> r == Percent(total, promo)
  {
    if promo.daysBeforeFunction != 0 && b.daysBefore >= promo.daysBeforeFunction && IsPercentage(promo) then Percent(total, promo)
    else total
  }

  /** Rule 4: a percentage off for at least `min_tickets` tickets. */
  function QuantityDiscount(total: real, promo: Promotion, b: Purchase): (r: real)
    ensures r == total || r == Percent(total, promo)
    ensures promo.minTickets == 0 || b.ticketCount < promo.minTickets || !IsPercentage(promo) ==> r == total
    ensures promo.minTickets != 0 && b.ticketCount >= promo.minTickets && IsPercentage(promo) ==> r == Percent(total, promo)
  {
    if promo.minTickets != 0 && b.ticketCount >= promo.minTickets && IsPercentage(promo) then Percent(total, promo)
    else total
  }

  /** One promotion's four rules applied in order to the running total. */
  function PromotionPrice(promo: Promotion, b: Purchase): (r: real)
    ensures !IsPercentage(promo) ==> r == TwoForOne(b.totalPrice, promo, b)
    ensures promo.discountType != "2x1" ==>
      r == QuantityDiscount(EarlyDiscount(CardDiscount(b.totalPrice, promo, b), promo, b), promo, b)
    ensures !IsPercentage(promo) && promo.discountType != "2x1" ==> r == b.totalPrice
  {
    QuantityDiscount(EarlyDiscount(CardDiscount(TwoForOne(b.totalPrice, promo, b), promo, b), promo, b), promo, b)
  }

  function Max0(x: real): (r: real)
    ensures r >= 0.0 && r >= x && (r == x || r == 0.0)
  {
    if x >= 0.0 then x else 0.0
  }

  /** The result: `None` without an active promotion, else the first one's
      price clamped at 0. */
  function DiscountedTotal(promotions: seq<Promotion>, b: Purchase): (r: Option<real>)
    ensures r == None <==> forall i :: 0 <= i < |promotions| ==> !promotions[i].active
    ensures r.Some? ==> r.value >= 0.0
  {
    var active := ActivePromotions(promotions);
    if active == [] then
      None
    else
      assert active[0] in active;
      Some(Max0(PromotionPrice(active[0], b)))
  }

  /** `apply_discounts`. The `return` at the end of the loop body ends the
      loop in its first iteration; here the body records the result in `r`
      and the loop stops once it is set. */
  method ApplyDiscounts(b: Purchase, promotions: seq<Promotion>) returns (r: Option<real>)
    ensures r == DiscountedTotal(promotions, b)
  {
    var totalPrice := b.totalPrice;
    var applicable := ActivePromotions(promotions);
    r := None;
    var i := 0;
    while i < |applicable| && r == None
      invariant 0 <= i <= 1 && i <= |applicable|
      invariant r == None <==> i == 0
      invariant r != None ==> r == DiscountedTotal(promotions, b)
      invariant totalPrice == b.totalPrice || i == 1
    {
      var promo := applicable[i];
      if promo.applicableDay != "" && b.weekday == promo.applicableDay {
        if promo.discountType == "2x1" && b.ticketCount >= 2 {
          totalPrice := totalPrice - b.functionPrice;
        }
      }
      assert totalPrice == TwoForOne(b.totalPrice, promo, b);
      if promo.cardType != "" && Some(promo.cardType) == b.cardType {
        if promo.discountType == "percentage" {
          totalPrice := totalPrice - totalPrice * (promo.discountValue / 100.0);
        }
      }
      assert totalPrice == CardDiscount(TwoForOne(b.totalPrice, promo, b), promo, b);
      if promo.daysBeforeFunction != 0 {
        if b.daysBefore >= promo.daysBeforeFunction {
          if promo.discountType == "percentage" {
            totalPrice := totalPrice - totalPrice * (promo.discountValue / 100.0);
          }
        }
      }
      assert totalPrice == EarlyDiscount(CardDiscount(TwoForOne(b.totalPrice, promo, b), promo, b), promo, b);
      if promo.minTickets != 0 && b.ticketCount >= promo.minTickets {
        if promo.discountType == "percentage" {
          totalPrice := totalPrice - totalPrice * (promo.discountValue / 100.0);
        }
      }
      assert totalPrice == PromotionPrice(applicable[0], b);
      r := Some(Max0(totalPrice));
      i := i + 1;
    }
  }

  /** Only the first active promotion counts: promotions after it, active
      or not, never change the result. */
  lemma LaterPromotionsIgnored(first: seq<Promotion>, p: Promotion, rest1: seq<Promotion>, rest2: seq<Promotion>, b: Purchase)
    requires forall i :: 0 <= i < |first| ==> !first[i].active
    requires p.active
    ensures DiscountedTotal(first + [p] + rest1, b) == DiscountedTotal(first + [p] + rest2, b) == Some(Max0(PromotionPrice(p, b)))
  {
    FirstActiveIsP(first, p, rest1);
    FirstActiveIsP(first, p, rest2);
  }

  lemma {:induction false} FirstActiveIsP(first: seq<Promotion>, p: Promotion, rest: seq<Promotion>)
    requires forall i :: 0 <= i < |first| ==> !first[i].active
    requires p.active
    ensures ActivePromotions(first + [p] + rest) == [p] + ActivePromotions(rest)
    decreases |first|
  {
    if first == [] {
      assert first + [p] + rest == [p] + rest;
      assert ([p] + rest)[1..] == rest;
    } else {
      var ps := first + [p] + rest;
      assert ps[1..] == first[1..] + [p] + rest;
      FirstActiveIsP(first[1..], p, rest);
    }
  }

  /** A percentage between 0 and 100 moves a total towards 0 without
      crossing it. */
  lemma PercentTowardsZero(total: real, promo: Promotion)
    requires 0.0 <= promo.discountValue <= 100.0
    ensures total >= 0.0 ==> 0.0 <= Percent(total, promo) <= total
    ensures total < 0.0 ==> total <= Percent(total, promo) <= 0.0
  {
    var f := promo.discountValue / 100.0;
    assert 0.0 <= f <= 1.0;
    assert Percent(total, promo) == total * (1.0 - f);
    if total >= 0.0 {
      assert total * (1.0 - f) <= total * 1.0;
    } else {
      assert total * (1.0 - f) >= total * 1.0;
    }
  }

  /** With a percentage in [0, 100] and a non-negative showing price,
      discounts never raise what the customer pays. */
  lemma DiscountsNeverRaisePrice(promotions: seq<Promotion>, b: Purchase)
    requires forall i :: 0 <= i < |promotions| ==> 0.0 <= promotions[i].discountValue <= 100.0
    requires b.functionPrice >= 0.0
    ensures var r := DiscountedTotal(promotions, b);
      r.Some? ==> r.value <= Max0(b.totalPrice)
  {
    var active := ActivePromotions(promotions);
    if active != [] {
      var promo := active[0];
      assert promo in active;
      var t1 := TwoForOne(b.totalPrice, promo, b);
      assert Max0(t1) <= Max0(b.totalPrice);
      var t2 := CardDiscount(t1, promo, b);
      PercentTowardsZero(t1, promo);
      assert Max0(t2) <= Max0(t1);
      var t3 := EarlyDiscount(t2, promo, b);
      PercentTowardsZero(t2, promo);
      assert Max0(t3) <= Max0(t2);
      var t4 := QuantityDiscount(t3, promo, b);
      PercentTowardsZero(t3, promo);
      assert Max0(t4) <= Max0(t3);
    }
  }

  /** A 2x1 promotion only ever takes one showing price off. */
  lemma TwoForOneTakesOnePrice(promo: Promotion, b: Purchase)
    requires promo.discountType == "2x1"
    ensures PromotionPrice(promo, b) ==
      if promo.applicableDay != "" && b.weekday == promo.applicableDay && b.ticketCount >= 2
      then b.totalPrice - b.functionPrice else b.totalPrice
  {
  }

  /** A percentage promotion whose card, early-purchase and quantity rules
      all match applies its percentage three times in a row. */
  lemma PercentagesCompound(promo: Promotion, b: Purchase)
    requires IsPercentage(promo)
    requires promo.cardType != "" && b.cardType == Some(promo.cardType)
    requires promo.daysBeforeFunction != 0 && b.daysBefore >= promo.daysBeforeFunction
    requires promo.minTickets != 0 && b.ticketCount >= promo.minTickets
    ensures var k := 1.0 - promo.discountValue / 100.0;
      PromotionPrice(promo, b) == b.totalPrice * k * k * k
  {
    var k := 1.0 - promo.discountValue / 100.0;
    assert forall t :: Percent(t, promo) == t * k;
  }
}

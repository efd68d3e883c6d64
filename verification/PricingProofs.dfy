/** What an accepted checkout guarantees about its amounts and units, and the loops behind it. */
module PricingProofs {
  import opened Base
  import opened Money
  import opened Pricing
  import S = SalesModel
  import SI = SalesInvariant

  // ----- Units ------------------------------------------------------------------------------

  predicate AllTickets(units: seq<S.Item>) {
    forall k :: 0 <= k < |units| ==> units[k].TicketItem?
  }

  predicate AllProducts(units: seq<S.Item>) {
    forall k :: 0 <= k < |units| ==> units[k].ProductItem?
  }

  /** Units of batch `b` a buyer selected directly. */
  function Chosen(b: nat): Selection -> int {
    (s: Selection) => if s.id == b then s.quantity else 0
  }

  /** Units of batch `b` that come from ticket offers. */
  function Offered(c: Catalog, b: nat): Selection -> int {
    (s: Selection) =>
      if s.id in c.offers && c.offers[s.id].productId.None? && c.offers[s.id].batchId == Some(b) then s.quantity else 0
  }

  lemma {:induction false} CopiesSums(item: S.Item, quantity: nat, weight: S.Item -> int)
    ensures Sum(Copies(item, quantity), weight) == quantity * weight(item)
  {
    if quantity > 0 {
      assert Copies(item, quantity)[..quantity - 1] == Copies(item, quantity - 1);
      CopiesSums(item, quantity - 1, weight);
      assert (quantity - 1) * weight(item) + weight(item) == quantity * weight(item);
    } else {
      assert Copies(item, quantity) == [];
    }
  }

  lemma {:induction false} SelectedAreTickets(c: Catalog, event: CatalogEvent, now: int, items: seq<Selection>)
    requires SelectedUnits(c, event, now, items).Ok?
    ensures AllTickets(SelectedUnits(c, event, now, items).value)
  {
    if items != [] {
      SelectedAreTickets(c, event, now, items[..|items| - 1]);
    }
  }

  lemma OfferUnitsKinds(c: Catalog, eventId: nat, now: int, s: Selection)
    requires OfferUnits(c, eventId, now, s).Ok?
    ensures var more := OfferUnits(c, eventId, now, s).value;
      if more != [] && more[0].ProductItem? then AllProducts(more) else AllTickets(more)
  {
  }

  lemma {:induction false} ResolvedAreSorted(c: Catalog, eventId: nat, now: int, offers: seq<Selection>)
    requires ResolveSelections(c, eventId, now, offers).Ok?
    ensures var r := ResolveSelections(c, eventId, now, offers).value; AllTickets(r.ticketUnits) && AllProducts(r.products)
  {
    if offers != [] {
      ResolvedAreSorted(c, eventId, now, offers[..|offers| - 1]);
      OfferUnitsKinds(c, eventId, now, offers[|offers| - 1]);
    }
  }

  // ----- Which items an order is made of ----------------------------------------------------

  /** The unit a selection of the event's batch sells: its stored type and price. */
  predicate SelectedAs(c: Catalog, eventId: nat, s: Selection, x: S.Item) {
    && s.id in c.batches && c.batches[s.id].eventId == eventId
    && x == S.TicketItem(s.id, c.batches[s.id].ticketTypeId, c.batches[s.id].priceCents)
  }

  /** The offer's price: its own, or its target's. */
  predicate OfferedAt(o: Offer, price: int, stored: nat) {
    price == if o.priceOverride.Some? then o.priceOverride.value else stored
  }

  /** The unit an offer sells: its product, or, without one, its batch with the batch's ticket type. */
  predicate OfferedAs(c: Catalog, s: Selection, x: S.Item) {
    && s.id in c.offers
    && var o := c.offers[s.id];
    match x
    case ProductItem(p, price) => o.productId == Some(p) && p in c.products && OfferedAt(o, price, c.products[p].priceCents)
    case TicketItem(b, t, price) =>
      && o.productId.None? && o.batchId == Some(b) && b in c.batches
      && t == c.batches[b].ticketTypeId && OfferedAt(o, price, c.batches[b].priceCents)
  }

  predicate SellsNothing(c: Catalog, s: Selection) {
    s.id in c.offers && c.offers[s.id].productId.None? && c.offers[s.id].batchId.None?
  }

  /** `chosen` and `offered` tell of a selection what `weight` counts in the units it sells. */
  ghost predicate Weighs(c: Catalog, eventId: nat, weight: S.Item -> int, chosen: Selection -> int, offered: Selection -> int) {
    && (forall s, x :: SelectedAs(c, eventId, s, x) ==> chosen(s) == s.quantity * weight(x))
    && (forall s, x :: OfferedAs(c, s, x) ==> offered(s) == s.quantity * weight(x))
    && (forall s :: SellsNothing(c, s) ==> offered(s) == 0)
  }

  lemma BatchUnitsAre(c: Catalog, event: CatalogEvent, now: int, s: Selection) returns (x: S.Item)
    requires BatchUnits(c, event, now, s).Ok?
    ensures SelectedAs(c, event.id, s, x) && BatchUnits(c, event, now, s).value == Copies(x, s.quantity)
  {
    x := S.TicketItem(s.id, c.batches[s.id].ticketTypeId, c.batches[s.id].priceCents);
  }

  lemma OfferUnitsAre(c: Catalog, eventId: nat, now: int, s: Selection) returns (x: Option<S.Item>)
    requires OfferUnits(c, eventId, now, s).Ok?
    ensures x.Some? ==> OfferedAs(c, s, x.value) && OfferUnits(c, eventId, now, s).value == Copies(x.value, s.quantity)
    ensures x.None? ==> SellsNothing(c, s) && OfferUnits(c, eventId, now, s).value == []
  {
    var o := c.offers[s.id];
    if o.productId.Some? {
      var p := c.products[o.productId.value];
      x := Some(S.ProductItem(o.productId.value, if o.priceOverride.Some? then o.priceOverride.value else p.priceCents));
    } else if o.batchId.Some? {
      var b := c.batches[o.batchId.value];
      x := Some(S.TicketItem(o.batchId.value, b.ticketTypeId,
                             if o.priceOverride.Some? then o.priceOverride.value else b.priceCents));
    } else {
      x := None;
    }
  }

  lemma {:induction false} SelectedSum(
      c: Catalog, event: CatalogEvent, now: int, items: seq<Selection>, weight: S.Item -> int,
      chosen: Selection -> int, offered: Selection -> int)
    requires SelectedUnits(c, event, now, items).Ok? && Weighs(c, event.id, weight, chosen, offered)
    ensures Sum(SelectedUnits(c, event, now, items).value, weight) == Sum(items, chosen)
  {
    if items != [] {
      var n := |items| - 1;
      SelectedSum(c, event, now, items[..n], weight, chosen, offered);
      var x := BatchUnitsAre(c, event, now, items[n]);
      CopiesSums(x, items[n].quantity, weight);
      SumConcat(SelectedUnits(c, event, now, items[..n]).value, Copies(x, items[n].quantity), weight);
    }
  }

  lemma OfferSum(
      c: Catalog, eventId: nat, now: int, s: Selection, weight: S.Item -> int,
      chosen: Selection -> int, offered: Selection -> int)
    requires OfferUnits(c, eventId, now, s).Ok? && Weighs(c, eventId, weight, chosen, offered)
    ensures Sum(OfferUnits(c, eventId, now, s).value, weight) == offered(s)
  {
    var x := OfferUnitsAre(c, eventId, now, s);
    if x.Some? {
      CopiesSums(x.value, s.quantity, weight);
    }
  }

  lemma {:induction false} OfferedSum(
      c: Catalog, eventId: nat, now: int, offers: seq<Selection>, weight: S.Item -> int,
      chosen: Selection -> int, offered: Selection -> int)
    requires ResolveSelections(c, eventId, now, offers).Ok? && Weighs(c, eventId, weight, chosen, offered)
    ensures var r := ResolveSelections(c, eventId, now, offers).value;
      Sum(r.ticketUnits, weight) + Sum(r.products, weight) == Sum(offers, offered)
  {
    if offers != [] {
      var n := |offers| - 1;
      OfferedSum(c, eventId, now, offers[..n], weight, chosen, offered);
      var r := ResolveSelections(c, eventId, now, offers[..n]).value;
      var more := OfferUnits(c, eventId, now, offers[n]).value;
      OfferSum(c, eventId, now, offers[n], weight, chosen, offered);
      SumConcat(r.ticketUnits, more, weight);
      SumConcat(r.products, more, weight);
    }
  }

  /** Whatever is counted over an accepted order is counted over what was asked for. */
  lemma AcceptedSum(
      c: Catalog, event: Option<CatalogEvent>, req: Request, now: int, weight: S.Item -> int,
      chosen: Selection -> int, offered: Selection -> int)
    requires PriceCheckout(c, event, req, now).Ok? && Weighs(c, event.value.id, weight, chosen, offered)
    ensures Sum(PriceCheckout(c, event, req, now).value.items, weight) == Sum(req.items, chosen) + Sum(req.offers, offered)
  {
    var e := event.value;
    var selected := SelectedUnits(c, e, now, req.items).value;
    var resolved := ResolveSelections(c, e.id, now, req.offers).value;
    SelectedSum(c, e, now, req.items, weight, chosen, offered);
    OfferedSum(c, e.id, now, req.offers, weight, chosen, offered);
    SumConcat(selected, resolved.ticketUnits, weight);
    SumConcat(selected + resolved.ticketUnits, resolved.products, weight);
  }

  function Copy(x: S.Item): S.Item -> int {
    (i: S.Item) => if i == x then 1 else 0
  }

  function ChosenAs(c: Catalog, eventId: nat, x: S.Item): Selection -> int {
    (s: Selection) => if SelectedAs(c, eventId, s, x) then s.quantity else 0
  }

  function OfferedUnits(c: Catalog, x: S.Item): Selection -> int {
    (s: Selection) => if OfferedAs(c, s, x) then s.quantity else 0
  }

  /** The order holds every item exactly as often as the selections and offers that sell that very item ask for. */
  ghost predicate ItemsAsked(c: Catalog, eventId: nat, req: Request, items: seq<S.Item>) {
    forall x: S.Item :: Sum(items, Copy(x)) == Sum(req.items, ChosenAs(c, eventId, x)) + Sum(req.offers, OfferedUnits(c, x))
  }

  lemma CopyWeighs(c: Catalog, eventId: nat, x: S.Item)
    ensures Weighs(c, eventId, Copy(x), ChosenAs(c, eventId, x), OfferedUnits(c, x))
  {
  }

  /**
   * The items of every accepted order, as a multiset: product, ticket type and price of each come from
   * the stored batch or from the offer that sells it, in exactly the quantities asked for.
   */
  lemma AcceptedCheckoutItems(c: Catalog, event: Option<CatalogEvent>, req: Request, now: int)
    requires PriceCheckout(c, event, req, now).Ok?
    ensures ItemsAsked(c, event.value.id, req, PriceCheckout(c, event, req, now).value.items)
  {
    var items := PriceCheckout(c, event, req, now).value.items;
    forall x: S.Item
      ensures Sum(items, Copy(x)) == Sum(req.items, ChosenAs(c, event.value.id, x)) + Sum(req.offers, OfferedUnits(c, x))
    {
      CopyWeighs(c, event.value.id, x);
      AcceptedSum(c, event, req, now, Copy(x), ChosenAs(c, event.value.id, x), OfferedUnits(c, x));
    }
  }

  /** Ticket units and products apart, the offers resolve to every item exactly as often as offers that sell it ask. */
  ghost predicate OfferItems(c: Catalog, offers: seq<Selection>, r: Resolved) {
    && AllTickets(r.ticketUnits) && AllProducts(r.products)
    && (forall x: S.Item :: Sum(r.ticketUnits, Copy(x)) + Sum(r.products, Copy(x)) == Sum(offers, OfferedUnits(c, x)))
  }

  lemma ResolvedItems(c: Catalog, eventId: nat, now: int, offers: seq<Selection>)
    requires ResolveSelections(c, eventId, now, offers).Ok?
    ensures OfferItems(c, offers, ResolveSelections(c, eventId, now, offers).value)
  {
    var r := ResolveSelections(c, eventId, now, offers).value;
    ResolvedAreSorted(c, eventId, now, offers);
    forall x: S.Item ensures Sum(r.ticketUnits, Copy(x)) + Sum(r.products, Copy(x)) == Sum(offers, OfferedUnits(c, x)) {
      CopyWeighs(c, eventId, x);
      OfferedSum(c, eventId, now, offers, Copy(x), ChosenAs(c, eventId, x), OfferedUnits(c, x));
    }
  }

  function ProductUnit(p: nat): S.Item -> int {
    (i: S.Item) => if i.ProductItem? && i.productId == p then 1 else 0
  }

  /** Units of product `p` that come from offers of that product. */
  function OfferedProduct(c: Catalog, p: nat): Selection -> int {
    (s: Selection) => if s.id in c.offers && c.offers[s.id].productId == Some(p) then s.quantity else 0
  }

  /** Product by product, an accepted order sells exactly what the offers of that product ask for. */
  lemma AcceptedCheckoutProducts(c: Catalog, event: Option<CatalogEvent>, req: Request, now: int, p: nat)
    requires PriceCheckout(c, event, req, now).Ok?
    ensures Sum(PriceCheckout(c, event, req, now).value.items, ProductUnit(p)) == Sum(req.offers, OfferedProduct(c, p))
  {
    var none: Selection -> int := (s: Selection) => 0;
    AcceptedSum(c, event, req, now, ProductUnit(p), none, OfferedProduct(c, p));
    SumZero(req.items, none);
  }

  lemma {:induction false} PositiveSum<T>(rows: seq<T>, weight: T -> int) returns (k: nat)
    requires Sum(rows, weight) > 0
    ensures k < |rows| && weight(rows[k]) > 0
  {
    k := |rows| - 1;
    if weight(rows[k]) <= 0 {
      k := PositiveSum(rows[..k], weight);
    }
  }

  /** Every item of an accepted order is sold by one of the requested selections or offers. */
  lemma EveryItemIsAsked(c: Catalog, event: Option<CatalogEvent>, req: Request, now: int, k: nat)
    requires PriceCheckout(c, event, req, now).Ok? && k < |PriceCheckout(c, event, req, now).value.items|
    ensures var x := PriceCheckout(c, event, req, now).value.items[k];
      || (exists i :: 0 <= i < |req.items| && SelectedAs(c, event.value.id, req.items[i], x))
      || (exists j :: 0 <= j < |req.offers| && OfferedAs(c, req.offers[j], x))
  {
    var items := PriceCheckout(c, event, req, now).value.items;
    AcceptedCheckoutItems(c, event, req, now);
    SumAtLeast(items, k, Copy(items[k]));
    if Sum(req.items, ChosenAs(c, event.value.id, items[k])) > 0 {
      var i := PositiveSum(req.items, ChosenAs(c, event.value.id, items[k]));
    } else {
      var j := PositiveSum(req.offers, OfferedUnits(c, items[k]));
    }
  }

  // ----- Amounts --------------------------------------------------------------------------------

  /** A coupon never discounts below zero or past the subtotal; its exact size by kind. */
  lemma CouponDiscountExact(coupon: Coupon, subtotal: int)
    requires CouponDiscount(coupon, subtotal).Ok?
    ensures var d := CouponDiscount(coupon, subtotal).value;
      && 0 <= d <= subtotal
      && (coupon.kind == Percent && 0 <= coupon.value <= FULL_BPS ==> d == Bps(subtotal, coupon.value))
      && (coupon.kind == Percent && coupon.value >= FULL_BPS ==> d == subtotal)
      && (coupon.kind == Fixed && 0 <= coupon.value <= subtotal ==> d == coupon.value)
      && (coupon.kind == Fixed && coupon.value >= subtotal ==> d == subtotal)
  {
    if coupon.kind == Percent {
      BpsWithin(subtotal, Min(coupon.value, FULL_BPS));
    }
  }

  /** The identity every stored order satisfies, and the ranges of its parts. */
  predicate AmountsAgree(p: Priced, ticketSubtotal: int) {
    && 0 <= p.discountCents <= ticketSubtotal
    && p.subtotalCents == Sum(p.items, Price())
    && p.totalCents == Sum(p.items, Price()) - p.discountCents + (if p.feeMode == Buyer then p.feeCents else 0)
    && p.feeCents >= 0
  }

  function TicketPrice(): S.Item -> int {
    (i: S.Item) => if i.TicketItem? then i.unitPriceCents else 0
  }

  lemma TicketPricesOnly(units: seq<S.Item>, products: seq<S.Item>)
    requires AllTickets(units) && AllProducts(products)
    ensures Sum(units + products, TicketPrice()) == Sum(units, Price())
    ensures Sum(units + products, Price()) == Sum(units, Price()) + Sum(products, Price())
  {
    SumConcat(units, products, TicketPrice());
    SumConcat(units, products, Price());
    SumEq(units, TicketPrice(), Price());
    SumZero(products, TicketPrice());
  }

  /** An accepted checkout is the priced order of its resolved units and products. */
  lemma AcceptedIsPriced(c: Catalog, event: Option<CatalogEvent>, req: Request, now: int)
    requires PriceCheckout(c, event, req, now).Ok?
    ensures event.Some?
    ensures SelectedUnits(c, event.value, now, req.items).Ok? && ResolveSelections(c, event.value.id, now, req.offers).Ok?
    ensures var resolved := ResolveSelections(c, event.value.id, now, req.offers).value;
      PriceCheckout(c, event, req, now)
      == PriceUnits(event.value, req, now, SelectedUnits(c, event.value, now, req.items).value + resolved.ticketUnits,
                    resolved.products)
  {
  }

  lemma ResolvedKinds(c: Catalog, e: CatalogEvent, req: Request, now: int)
    requires SelectedUnits(c, e, now, req.items).Ok? && ResolveSelections(c, e.id, now, req.offers).Ok?
    ensures var resolved := ResolveSelections(c, e.id, now, req.offers).value;
      AllTickets(SelectedUnits(c, e, now, req.items).value + resolved.ticketUnits) && AllProducts(resolved.products)
  {
    SelectedAreTickets(c, e, now, req.items);
    ResolvedAreSorted(c, e.id, now, req.offers);
  }

  lemma DiscountWithin(coupon: Option<Option<Coupon>>, now: int, subtotal: int)
    requires subtotal >= 0 && ResolveDiscount(coupon, now, subtotal).Ok?
    ensures 0 <= ResolveDiscount(coupon, now, subtotal).value <= subtotal
    ensures coupon.None? ==> ResolveDiscount(coupon, now, subtotal).value == 0
  {
  }

  /** What the priced order's parts are, in terms of its units and products. */
  lemma PricedParts(e: CatalogEvent, req: Request, now: int, units: seq<S.Item>, products: seq<S.Item>)
    requires PriceUnits(e, req, now, units, products).Ok?
    ensures var p := PriceUnits(e, req, now, units, products).value; var tickets := Sum(units, Price());
      && p.items == units + products && p.feeMode == e.feeMode
      && ResolveDiscount(req.coupon, now, tickets) == Ok(p.discountCents)
      && p.subtotalCents == tickets + Sum(products, Price())
      && tickets - p.discountCents >= 0 && e.feeBps >= 0 && p.feeCents >= 0
      && p.feeCents == Bps(tickets - p.discountCents, e.feeBps)
      && p.totalCents == p.subtotalCents - p.discountCents + if e.feeMode == Buyer then p.feeCents else 0
  {
  }

  lemma PricedAgrees(e: CatalogEvent, req: Request, now: int, units: seq<S.Item>, products: seq<S.Item>)
    requires PriceUnits(e, req, now, units, products).Ok? && AllTickets(units) && AllProducts(products)
    ensures var p := PriceUnits(e, req, now, units, products).value; var tickets := Sum(p.items, TicketPrice());
      && AmountsAgree(p, tickets) && p.feeMode == e.feeMode
      && p.feeCents == Bps(tickets - p.discountCents, e.feeBps)
      && (e.feeBps <= FULL_BPS ==> p.feeCents <= tickets - p.discountCents)
      && (req.coupon.None? ==> p.discountCents == 0)
      && p.totalCents >= 0
  {
    var p := PriceUnits(e, req, now, units, products).value;
    PricedParts(e, req, now, units, products);
    TicketPricesOnly(units, products);
    SumNonNegative(products, Price());
    SumNonNegative(units, Price());
    DiscountWithin(req.coupon, now, Sum(units, Price()));
    if e.feeBps <= FULL_BPS {
      BpsWithin(Sum(units, Price()) - p.discountCents, e.feeBps);
    }
  }

  /**
   * Every accepted checkout: 0 <= discount <= ticket subtotal; the fee is the rounded share of
   * the discounted ticket value and, up to 100%, at most that value; the total is the sum of
   * all item prices, less the discount, plus the fee when the buyer pays it.
   */
  lemma AcceptedCheckoutAgrees(c: Catalog, event: Option<CatalogEvent>, req: Request, now: int)
    requires PriceCheckout(c, event, req, now).Ok?
    ensures var p := PriceCheckout(c, event, req, now).value; var tickets := Sum(p.items, TicketPrice());
      && AmountsAgree(p, tickets) && p.feeMode == event.value.feeMode
      && p.feeCents == Bps(tickets - p.discountCents, event.value.feeBps)
      && (event.value.feeBps <= FULL_BPS ==> p.feeCents <= tickets - p.discountCents)
      && (req.coupon.None? ==> p.discountCents == 0)
      && p.totalCents >= 0
  {
    var e := event.value;
    AcceptedIsPriced(c, event, req, now);
    ResolvedKinds(c, e, req, now);
    var resolved := ResolveSelections(c, e.id, now, req.offers).value;
    PricedAgrees(e, req, now, SelectedUnits(c, e, now, req.items).value + resolved.ticketUnits, resolved.products);
  }

  /** Offer units are merged in: per batch, the order's ticket units are exactly what was asked for. */
  lemma AcceptedCheckoutUnits(c: Catalog, event: Option<CatalogEvent>, req: Request, now: int, b: nat)
    requires PriceCheckout(c, event, req, now).Ok?
    ensures S.Units(PriceCheckout(c, event, req, now).value.items, b)
      == Sum(req.items, Chosen(b)) + Sum(req.offers, Offered(c, b))
  {
    AcceptedSum(c, event, req, now, S.UnitOf(b), Chosen(b), Offered(c, b));
  }

  /**
   * From request to inventory: placing a priced order reserves, in every batch, exactly the
   * units chosen directly plus those of the ticket offers.
   */
  lemma PlacedOrderReservesRequest(c: Catalog, event: Option<CatalogEvent>, req: Request, now: int, db: S.Db, expiresAt: int, b: nat)
    requires PriceCheckout(c, event, req, now).Ok? && b < |db.batches|
    requires S.CreatePendingOrder(db, event.value.id, PriceCheckout(c, event, req, now).value.items, expiresAt).Some?
    ensures var db' := S.CreatePendingOrder(db, event.value.id, PriceCheckout(c, event, req, now).value.items, expiresAt).value;
      && |db'.batches| == |db.batches|
      && db'.batches[b].reserved
          == db.batches[b].reserved + Sum(req.items, Chosen(b)) + Sum(req.offers, Offered(c, b))
  {
    SI.CheckoutExact(db, event.value.id, PriceCheckout(c, event, req, now).value.items, expiresAt);
    AcceptedCheckoutUnits(c, event, req, now, b);
  }

  // ----- The checkout's loops ------------------------------------------------------------------------

  /** The unit loop of one selection. */
  method PushCopies(units: seq<S.Item>, item: S.Item, quantity: nat) returns (out: seq<S.Item>)
    ensures out == units + Copies(item, quantity)
  {
    out := units;
    for i := 0 to quantity
      invariant out == units + Copies(item, i)
    {
      assert Copies(item, i + 1) == Copies(item, i) + [item];
      out := out + [item];
    }
  }

  method LoadUnits(c: Catalog, event: CatalogEvent, now: int, items: seq<Selection>) returns (r: Result<seq<S.Item>, CheckoutError>)
    ensures r == SelectedUnits(c, event, now, items)
  {
    var units: seq<S.Item> := [];
    for k := 0 to |items|
      invariant SelectedUnits(c, event, now, items[..k]) == Ok(units)
    {
      assert items[..k + 1][..k] == items[..k];
      var s := items[k];
      if s.id !in c.batches || c.batches[s.id].eventId != event.id {
        StaysErr(c, event, now, items, k + 1);
        return Err(BatchNotFound);
      }
      var b := c.batches[s.id];
      if b.status != S.Open {
        StaysErr(c, event, now, items, k + 1);
        return Err(NotOpen);
      }
      if !WithinWindow(now, b.startsAt, b.endsAt) {
        StaysErr(c, event, now, items, k + 1);
        return Err(OutsideWindow);
      }
      if b.maxPerOrder.Some? && s.quantity > b.maxPerOrder.value {
        StaysErr(c, event, now, items, k + 1);
        return Err(TooManyPerBatch);
      }
      units := PushCopies(units, S.TicketItem(s.id, b.ticketTypeId, b.priceCents), s.quantity);
    }
    assert items[..|items|] == items;
    return Ok(units);
  }

  lemma {:induction false} StaysErr(c: Catalog, event: CatalogEvent, now: int, items: seq<Selection>, k: nat)
    requires k <= |items| && SelectedUnits(c, event, now, items[..k]).Err?
    ensures SelectedUnits(c, event, now, items) == SelectedUnits(c, event, now, items[..k])
  {
    if k == |items| {
      assert items[..k] == items;
    } else {
      assert items[..|items| - 1][..k] == items[..k];
      StaysErr(c, event, now, items[..|items| - 1], k);
    }
  }

  method ResolveOffers(c: Catalog, eventId: nat, now: int, offers: seq<Selection>) returns (r: Result<Resolved, CheckoutError>)
    ensures r == ResolveSelections(c, eventId, now, offers)
    ensures r.Ok? ==> OfferItems(c, offers, r.value)
  {
    if ResolveSelections(c, eventId, now, offers).Ok? {
      ResolvedItems(c, eventId, now, offers);
    }
    var out := Resolved([], []);
    for k := 0 to |offers|
      invariant ResolveSelections(c, eventId, now, offers[..k]) == Ok(out)
    {
      assert offers[..k + 1][..k] == offers[..k];
      var units := OfferUnits(c, eventId, now, offers[k]);
      if units.Err? {
        OffersStayErr(c, eventId, now, offers, k + 1);
        return Err(units.error);
      }
      var more := units.value;
      if more != [] && more[0].ProductItem? {
        out := out.(products := out.products + more);
      } else {
        out := out.(ticketUnits := out.ticketUnits + more);
      }
    }
    assert offers[..|offers|] == offers;
    return Ok(out);
  }

  lemma {:induction false} OffersStayErr(c: Catalog, eventId: nat, now: int, offers: seq<Selection>, k: nat)
    requires k <= |offers| && ResolveSelections(c, eventId, now, offers[..k]).Err?
    ensures ResolveSelections(c, eventId, now, offers) == ResolveSelections(c, eventId, now, offers[..k])
  {
    if k == |offers| {
      assert offers[..k] == offers;
    } else {
      assert offers[..|offers| - 1][..k] == offers[..k];
      OffersStayErr(c, eventId, now, offers[..|offers| - 1], k);
    }
  }

  /** The running amounts of a checkout, from its units to the priced order. */
  method PriceLoaded(event: CatalogEvent, req: Request, now: int, units: seq<S.Item>, products: seq<S.Item>)
    returns (r: Result<Priced, CheckoutError>)
    ensures r == PriceUnits(event, req, now, units, products)
  {
    var ticketSubtotal := Sum(units, Price());
    var productSubtotal := Sum(products, Price());
    var discount := 0;
    if req.coupon.Some? {
      var resolved := ResolveDiscount(req.coupon, now, ticketSubtotal);
      if resolved.Err? {
        return Err(resolved.error);
      }
      discount := resolved.value;
    }
    var net := ticketSubtotal - discount;
    var netCents := Cents(net);
    if netCents.Err? {
      return Err(BadMoney(netCents.error));
    }
    var fee := PercentageOf(netCents.value, event.feeBps);
    if fee.Err? {
      return Err(BadMoney(fee.error));
    }
    if !req.hasContact {
      return Err(NoContact);
    }
    var total := net + productSubtotal;
    if event.feeMode == Buyer {
      total := total + fee.value;
    }
    return Ok(Priced(units + products, ticketSubtotal + productSubtotal, discount, fee.value, event.feeMode, total));
  }

  /** The checkout entry up to the order row: loops over the selections, then the amounts. */
  method CreateOrder(c: Catalog, event: Option<CatalogEvent>, req: Request, now: int) returns (r: Result<Priced, CheckoutError>)
    ensures r == PriceCheckout(c, event, req, now)
    ensures r.Ok? ==> ItemsAsked(c, event.value.id, req, r.value.items)
  {
    if PriceCheckout(c, event, req, now).Ok? {
      AcceptedCheckoutItems(c, event, req, now);
    }
    if event.None? {
      return Err(EventNotFound);
    }
    var e := event.value;
    if !WithinWindow(now, e.startsAt, e.endsAt) {
      return Err(OutsideWindow);
    }
    var selected := LoadUnits(c, e, now, req.items);
    if selected.Err? {
      return Err(selected.error);
    }
    var resolved := ResolveOffers(c, e.id, now, req.offers);
    if resolved.Err? {
      return Err(resolved.error);
    }
    var units := selected.value + resolved.value.ticketUnits;
    if e.maxTicketsPerOrder.Some? && |units| > e.maxTicketsPerOrder.value {
      return Err(TooManyPerEvent);
    }
    r := PriceLoaded(e, req, now, units, resolved.value.products);
  }
}

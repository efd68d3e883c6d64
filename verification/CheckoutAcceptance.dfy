/** When a checkout is accepted and what it then charges, told from the catalog and the request alone. */
module CheckoutAcceptance {
  import opened Base
  import opened Money
  import opened Pricing
  import opened PricingProofs
  import S = SalesModel

  // ----- What may be bought ---------------------------------------------------------------------

  /** No earlier than the start and no later than the end, where there is one. */
  predicate OnSaleAt(now: int, from: Option<int>, to: Option<int>) {
    (from == None || from.value <= now) && (to == None || now <= to.value)
  }

  /** The event's own open batch, inside its window, within its per-order limit. */
  predicate Sellable(c: Catalog, event: CatalogEvent, now: int, s: Selection) {
    && s.id in c.batches
    && var b := c.batches[s.id];
    && b.eventId == event.id && b.status == S.Open && OnSaleAt(now, b.startsAt, b.endsAt)
    && (b.maxPerOrder.Some? ==> s.quantity <= b.maxPerOrder.value)
  }

  predicate IsTicketOffer(o: Offer) {
    o.productId.None? && o.batchId.Some?
  }

  /** An active offer of this event whose product is active, or whose batch is the event's and on sale. */
  predicate OnOffer(c: Catalog, eventId: nat, now: int, s: Selection) {
    && s.id in c.offers
    && var o := c.offers[s.id];
    && o.active && (o.eventId.Some? ==> o.eventId.value == eventId)
    && (o.productId.Some? ==> o.productId.value in c.products && c.products[o.productId.value].active)
    && (IsTicketOffer(o) ==>
          && o.batchId.value in c.batches
          && var b := c.batches[o.batchId.value];
          && b.eventId == eventId && b.status == S.Open && OnSaleAt(now, b.startsAt, b.endsAt))
  }

  lemma {:induction false} SelectionAcceptedExactly(c: Catalog, event: CatalogEvent, now: int, items: seq<Selection>)
    ensures SelectedUnits(c, event, now, items).Ok?
      <==> forall k :: 0 <= k < |items| ==> Sellable(c, event, now, items[k])
  {
    if items != [] {
      var n := |items| - 1;
      SelectionAcceptedExactly(c, event, now, items[..n]);
      assert BatchUnits(c, event, now, items[n]).Ok? <==> Sellable(c, event, now, items[n]);
      assert forall k :: 0 <= k < n ==> items[..n][k] == items[k];
    }
  }

  lemma {:induction false} OffersAcceptedExactly(c: Catalog, eventId: nat, now: int, offers: seq<Selection>)
    ensures ResolveSelections(c, eventId, now, offers).Ok?
      <==> forall k :: 0 <= k < |offers| ==> OnOffer(c, eventId, now, offers[k])
  {
    if offers != [] {
      var n := |offers| - 1;
      OffersAcceptedExactly(c, eventId, now, offers[..n]);
      assert OfferUnits(c, eventId, now, offers[n]).Ok? <==> OnOffer(c, eventId, now, offers[n]);
      assert forall k :: 0 <= k < n ==> offers[..n][k] == offers[k];
    }
  }

  // ----- What it costs ----------------------------------------------------------------------------

  function Quantity(): Selection -> int {
    (s: Selection) => s.quantity
  }

  function BatchWorth(c: Catalog): Selection -> int {
    (s: Selection) => if s.id in c.batches then s.quantity * c.batches[s.id].priceCents else 0
  }

  /** An offer's own price, or its target's. */
  function OfferPrice(c: Catalog, o: Offer): int {
    if o.priceOverride.Some? then o.priceOverride.value
    else if o.productId.Some? then if o.productId.value in c.products then c.products[o.productId.value].priceCents else 0
    else if o.batchId.Some? && o.batchId.value in c.batches then c.batches[o.batchId.value].priceCents
    else 0
  }

  function TicketOfferWorth(c: Catalog): Selection -> int {
    (s: Selection) =>
      if s.id in c.offers && IsTicketOffer(c.offers[s.id]) then s.quantity * OfferPrice(c, c.offers[s.id]) else 0
  }

  function ProductOfferWorth(c: Catalog): Selection -> int {
    (s: Selection) =>
      if s.id in c.offers && c.offers[s.id].productId.Some? then s.quantity * OfferPrice(c, c.offers[s.id]) else 0
  }

  function TicketOfferCount(c: Catalog): Selection -> int {
    (s: Selection) => if s.id in c.offers && IsTicketOffer(c.offers[s.id]) then s.quantity else 0
  }

  function TicketsAsked(c: Catalog, req: Request): int {
    Sum(req.items, Quantity()) + Sum(req.offers, TicketOfferCount(c))
  }

  /** The ticket subtotal and the product subtotal of a request at the stored prices. */
  function TicketWorth(c: Catalog, req: Request): int {
    Sum(req.items, BatchWorth(c)) + Sum(req.offers, TicketOfferWorth(c))
  }

  function ProductWorth(c: Catalog, req: Request): int {
    Sum(req.offers, ProductOfferWorth(c))
  }

  lemma {:induction false} SelectedWorth(c: Catalog, event: CatalogEvent, now: int, items: seq<Selection>)
    requires SelectedUnits(c, event, now, items).Ok?
    ensures var units := SelectedUnits(c, event, now, items).value;
      Sum(units, Price()) == Sum(items, BatchWorth(c)) && |units| == Sum(items, Quantity())
  {
    if items != [] {
      var n := |items| - 1;
      SelectedWorth(c, event, now, items[..n]);
      var more := BatchUnits(c, event, now, items[n]).value;
      var b := c.batches[items[n].id];
      CopiesSums(S.TicketItem(items[n].id, b.ticketTypeId, b.priceCents), items[n].quantity, Price());
      SumConcat(SelectedUnits(c, event, now, items[..n]).value, more, Price());
    }
  }

  lemma OfferWorth(c: Catalog, eventId: nat, now: int, s: Selection)
    requires OfferUnits(c, eventId, now, s).Ok?
    ensures var more := OfferUnits(c, eventId, now, s).value;
      && (more != [] && more[0].ProductItem? ==>
            Sum(more, Price()) == ProductOfferWorth(c)(s) && TicketOfferWorth(c)(s) == 0 == TicketOfferCount(c)(s))
      && (more == [] || !more[0].ProductItem? ==>
            Sum(more, Price()) == TicketOfferWorth(c)(s) && |more| == TicketOfferCount(c)(s) && ProductOfferWorth(c)(s) == 0)
  {
    var more := OfferUnits(c, eventId, now, s).value;
    if more != [] {
      assert more == Copies(more[0], s.quantity);
      CopiesSums(more[0], s.quantity, Price());
    }
  }

  /** The resolved offers are worth this much: tickets, their number, and products. */
  predicate WorthOf(c: Catalog, r: Resolved, offers: seq<Selection>) {
    && Sum(r.ticketUnits, Price()) == Sum(offers, TicketOfferWorth(c))
    && Sum(r.products, Price()) == Sum(offers, ProductOfferWorth(c))
    && |r.ticketUnits| == Sum(offers, TicketOfferCount(c))
  }

  lemma WorthStep(c: Catalog, eventId: nat, now: int, r: Resolved, offers: seq<Selection>, s: Selection)
    requires OfferUnits(c, eventId, now, s).Ok? && WorthOf(c, r, offers)
    ensures var more := OfferUnits(c, eventId, now, s).value;
      WorthOf(c, if more != [] && more[0].ProductItem? then r.(products := r.products + more)
                 else r.(ticketUnits := r.ticketUnits + more), offers + [s])
  {
    var more := OfferUnits(c, eventId, now, s).value;
    OfferWorth(c, eventId, now, s);
    SumConcat(r.ticketUnits, more, Price());
    SumConcat(r.products, more, Price());
    SumPush(offers, s, TicketOfferWorth(c));
    SumPush(offers, s, ProductOfferWorth(c));
    SumPush(offers, s, TicketOfferCount(c));
  }

  lemma {:induction false} ResolvedWorth(c: Catalog, eventId: nat, now: int, offers: seq<Selection>)
    requires ResolveSelections(c, eventId, now, offers).Ok?
    ensures WorthOf(c, ResolveSelections(c, eventId, now, offers).value, offers)
  {
    if offers != [] {
      var n := |offers| - 1;
      ResolvedWorth(c, eventId, now, offers[..n]);
      WorthStep(c, eventId, now, ResolveSelections(c, eventId, now, offers[..n]).value, offers[..n], offers[n]);
      assert offers[..n] + [offers[n]] == offers;
    }
  }

  // ----- The coupon and the safe range of cents ------------------------------------------------------

  predicate Usable(coupon: Coupon, now: int) {
    && coupon.active && OnSaleAt(now, coupon.startsAt, coupon.endsAt)
    && (coupon.maxRedemptions.Some? ==> coupon.redemptions < coupon.maxRedemptions.value)
  }

  /** No coupon, or one that exists, is usable now and can be computed on this subtotal. */
  predicate CouponFits(coupon: Option<Option<Coupon>>, now: int, tickets: int) {
    coupon.None?
    || (coupon.value.Some? && Usable(coupon.value.value, now) && 0 <= tickets <= MAX_SAFE_INTEGER
        && (coupon.value.value.kind == Percent ==> coupon.value.value.value >= 0))
  }

  /** What a coupon takes off: its value or its share of the subtotal, between nothing and all of it. */
  function CouponWorth(coupon: Coupon, tickets: int): int {
    if coupon.kind == Percent then Bps(tickets, if coupon.value < FULL_BPS then coupon.value else FULL_BPS)
    else if coupon.value < 0 then 0
    else if coupon.value < tickets then coupon.value
    else tickets
  }

  function DiscountOn(req: Request, tickets: int): int {
    if req.coupon.None? || req.coupon.value.None? then 0 else CouponWorth(req.coupon.value.value, tickets)
  }

  /** The pricing code discounts exactly when the coupon fits, and then by the coupon's worth. */
  lemma CouponAcceptedExactly(req: Request, now: int, tickets: int)
    ensures ResolveDiscount(req.coupon, now, tickets).Ok? <==> CouponFits(req.coupon, now, tickets)
    ensures CouponFits(req.coupon, now, tickets) ==>
      ResolveDiscount(req.coupon, now, tickets).value == DiscountOn(req, tickets)
  {
    if req.coupon.Some? && req.coupon.value.Some? && 0 <= tickets <= MAX_SAFE_INTEGER {
      var bps := Min(req.coupon.value.value.value, FULL_BPS);
      if bps >= 0 {
        PercentageOfSafe(tickets, bps);
        BpsWithin(tickets, bps);
      }
    }
  }

  /** The net ticket value and its fee are safe amounts of cents. */
  predicate FeeFits(net: int, feeBps: int) {
    0 <= net <= MAX_SAFE_INTEGER && 0 <= feeBps <= MAX_SAFE_INTEGER && 0 <= Bps(net, feeBps) <= MAX_SAFE_INTEGER
  }

  predicate MoneyFits(req: Request, now: int, tickets: int, feeBps: int) {
    CouponFits(req.coupon, now, tickets) && FeeFits(tickets - DiscountOn(req, tickets), feeBps)
  }

  lemma PricingAcceptedExactly(event: CatalogEvent, req: Request, now: int, units: seq<S.Item>, products: seq<S.Item>)
    ensures PriceUnits(event, req, now, units, products).Ok?
      <==> req.hasContact && MoneyFits(req, now, Sum(units, Price()), event.feeBps)
  {
    CouponAcceptedExactly(req, now, Sum(units, Price()));
  }

  // ----- The whole checkout ------------------------------------------------------------------------------

  /** Everything a checkout asks of its event, its selections and its offers. */
  predicate Purchasable(c: Catalog, e: CatalogEvent, req: Request, now: int) {
    && OnSaleAt(now, e.startsAt, e.endsAt)
    && (forall k :: 0 <= k < |req.items| ==> Sellable(c, e, now, req.items[k]))
    && (forall k :: 0 <= k < |req.offers| ==> OnOffer(c, e.id, now, req.offers[k]))
    && (e.maxTicketsPerOrder.Some? ==> TicketsAsked(c, req) <= e.maxTicketsPerOrder.value)
  }

  /** The units of a request at their stored prices. */
  lemma UnitsWorth(c: Catalog, e: CatalogEvent, req: Request, now: int)
    requires SelectedUnits(c, e, now, req.items).Ok? && ResolveSelections(c, e.id, now, req.offers).Ok?
    ensures var resolved := ResolveSelections(c, e.id, now, req.offers).value;
      var units := SelectedUnits(c, e, now, req.items).value + resolved.ticketUnits;
      && Sum(units, Price()) == TicketWorth(c, req) && |units| == TicketsAsked(c, req)
      && Sum(resolved.products, Price()) == ProductWorth(c, req)
  {
    SelectedWorth(c, e, now, req.items);
    ResolvedWorth(c, e.id, now, req.offers);
    SumConcat(SelectedUnits(c, e, now, req.items).value, ResolveSelections(c, e.id, now, req.offers).value.ticketUnits, Price());
  }

  /**
   * A checkout is accepted if and only if its event is published and on sale, everything asked for
   * may be bought, the order is within the event's limit, the coupon and the amounts fit and the
   * buyer left a contact.
   */
  lemma AcceptedExactly(c: Catalog, event: Option<CatalogEvent>, req: Request, now: int)
    ensures PriceCheckout(c, event, req, now).Ok? <==>
      && event.Some?
      && Purchasable(c, event.value, req, now)
      && req.hasContact
      && MoneyFits(req, now, TicketWorth(c, req), event.value.feeBps)
  {
    if event.Some? {
      var e := event.value;
      SelectionAcceptedExactly(c, e, now, req.items);
      OffersAcceptedExactly(c, e.id, now, req.offers);
      if SelectedUnits(c, e, now, req.items).Ok? && ResolveSelections(c, e.id, now, req.offers).Ok? {
        var resolved := ResolveSelections(c, e.id, now, req.offers).value;
        UnitsWorth(c, e, req, now);
        PricingAcceptedExactly(e, req, now, SelectedUnits(c, e, now, req.items).value + resolved.ticketUnits, resolved.products);
      }
    }
  }

  lemma DiscountCharged(req: Request, now: int, tickets: int)
    requires ResolveDiscount(req.coupon, now, tickets).Ok?
    ensures ResolveDiscount(req.coupon, now, tickets).value == DiscountOn(req, tickets)
  {
    CouponAcceptedExactly(req, now, tickets);
  }

  /** The amounts of a priced order, told from its ticket and product subtotals. */
  predicate ChargedOn(p: Priced, req: Request, e: CatalogEvent, tickets: int, products: int) {
    && p.subtotalCents == tickets + products
    && p.discountCents == DiscountOn(req, tickets)
    && p.feeCents == Bps(tickets - p.discountCents, e.feeBps)
    && p.totalCents == p.subtotalCents - p.discountCents + if e.feeMode == Buyer then p.feeCents else 0
  }

  lemma PricedOn(e: CatalogEvent, req: Request, now: int, units: seq<S.Item>, products: seq<S.Item>)
    requires PriceUnits(e, req, now, units, products).Ok?
    ensures ChargedOn(PriceUnits(e, req, now, units, products).value, req, e, Sum(units, Price()), Sum(products, Price()))
  {
    PricedParts(e, req, now, units, products);
    DiscountCharged(req, now, Sum(units, Price()));
  }

  /** An accepted checkout charges the stored prices, whatever the client sent. */
  lemma ChargesCatalogPrices(c: Catalog, event: Option<CatalogEvent>, req: Request, now: int)
    requires PriceCheckout(c, event, req, now).Ok?
    ensures ChargedOn(PriceCheckout(c, event, req, now).value, req, event.value, TicketWorth(c, req), ProductWorth(c, req))
  {
    var e := event.value;
    AcceptedIsPriced(c, event, req, now);
    UnitsWorth(c, e, req, now);
    var resolved := ResolveSelections(c, e.id, now, req.offers).value;
    PricedOn(e, req, now, SelectedUnits(c, e, now, req.items).value + resolved.ticketUnits, resolved.products);
  }

  // ----- Why a checkout is refused ---------------------------------------------------------------------

  predicate Found(c: Catalog, event: CatalogEvent, s: Selection) {
    s.id in c.batches && c.batches[s.id].eventId == event.id
  }

  /** The first reason against a selected batch: missing, not open, outside its window, too many. */
  predicate SelectionRefused(c: Catalog, event: CatalogEvent, now: int, s: Selection, err: CheckoutError) {
    if !Found(c, event, s) then err == BatchNotFound
    else if c.batches[s.id].status != S.Open then err == NotOpen
    else if !OnSaleAt(now, c.batches[s.id].startsAt, c.batches[s.id].endsAt) then err == OutsideWindow
    else c.batches[s.id].maxPerOrder.Some? && s.quantity > c.batches[s.id].maxPerOrder.value && err == TooManyPerBatch
  }

  /** Some selection is refused with `err` and every earlier one could be bought. */
  predicate FirstRefused(c: Catalog, event: CatalogEvent, now: int, items: seq<Selection>, err: CheckoutError) {
    exists k :: 0 <= k < |items| && SelectionRefused(c, event, now, items[k], err) && AllSellable(c, event, now, items[..k])
  }

  predicate AllSellable(c: Catalog, event: CatalogEvent, now: int, items: seq<Selection>) {
    forall k :: 0 <= k < |items| ==> Sellable(c, event, now, items[k])
  }

  predicate AllOnOffer(c: Catalog, eventId: nat, now: int, offers: seq<Selection>) {
    forall k :: 0 <= k < |offers| ==> OnOffer(c, eventId, now, offers[k])
  }

  lemma {:induction false} SelectionRefusedFirst(c: Catalog, event: CatalogEvent, now: int, items: seq<Selection>)
    requires SelectedUnits(c, event, now, items).Err?
    ensures FirstRefused(c, event, now, items, SelectedUnits(c, event, now, items).error)
  {
    var n := |items| - 1;
    var err := SelectedUnits(c, event, now, items).error;
    if SelectedUnits(c, event, now, items[..n]).Err? {
      SelectionRefusedFirst(c, event, now, items[..n]);
      var k :| 0 <= k < n && SelectionRefused(c, event, now, items[..n][k], err) && AllSellable(c, event, now, items[..n][..k]);
      assert items[..n][..k] == items[..k];
      assert SelectionRefused(c, event, now, items[k], err);
    } else {
      SelectionAcceptedExactly(c, event, now, items[..n]);
      assert SelectionRefused(c, event, now, items[n], err);
    }
  }

  lemma {:induction false} OffersRefusedAlike(c: Catalog, eventId: nat, now: int, offers: seq<Selection>)
    requires ResolveSelections(c, eventId, now, offers).Err?
    ensures ResolveSelections(c, eventId, now, offers).error == OfferUnavailable
  {
    var n := |offers| - 1;
    if ResolveSelections(c, eventId, now, offers[..n]).Err? {
      OffersRefusedAlike(c, eventId, now, offers[..n]);
    }
  }

  /** The first reason against a coupon: unknown, switched off, not yet or no longer valid, used up. */
  predicate CouponRefused(coupon: Option<Coupon>, now: int, reason: CouponRejection) {
    if coupon.None? then reason == CouponNotFound
    else if !coupon.value.active then reason == Inactive
    else if coupon.value.startsAt.Some? && coupon.value.startsAt.value > now then reason == NotStarted
    else if coupon.value.endsAt.Some? && coupon.value.endsAt.value < now then reason == CouponEnded
    else
      && coupon.value.maxRedemptions.Some? && coupon.value.redemptions >= coupon.value.maxRedemptions.value
      && reason == Exhausted
  }

  predicate PricingRefused(e: CatalogEvent, req: Request, now: int, tickets: int, err: CheckoutError) {
    if req.coupon.Some? && (req.coupon.value.None? || !Usable(req.coupon.value.value, now)) then
      err.CouponRejected? && CouponRefused(req.coupon.value, now, err.reason)
    else if !MoneyFits(req, now, tickets, e.feeBps) then err.BadMoney?
    else !req.hasContact && err == NoContact
  }

  /** What a refused checkout must report: the first thing wrong with it, in the order the shop looks. */
  predicate RefusalFits(c: Catalog, event: Option<CatalogEvent>, req: Request, now: int, err: CheckoutError) {
    if event.None? then err == EventNotFound
    else
      var e := event.value;
      if !OnSaleAt(now, e.startsAt, e.endsAt) then err == OutsideWindow
      else if !AllSellable(c, e, now, req.items) then FirstRefused(c, e, now, req.items, err)
      else if !AllOnOffer(c, e.id, now, req.offers) then err == OfferUnavailable
      else if e.maxTicketsPerOrder.Some? && TicketsAsked(c, req) > e.maxTicketsPerOrder.value then err == TooManyPerEvent
      else PricingRefused(e, req, now, TicketWorth(c, req), err)
  }

  lemma PricingRefusedExactly(event: CatalogEvent, req: Request, now: int, units: seq<S.Item>, products: seq<S.Item>)
    requires PriceUnits(event, req, now, units, products).Err?
    ensures PricingRefused(event, req, now, Sum(units, Price()), PriceUnits(event, req, now, units, products).error)
  {
    CouponAcceptedExactly(req, now, Sum(units, Price()));
  }

  /** A refused checkout reports the first thing that is wrong with it. */
  lemma RefusedExactly(c: Catalog, event: Option<CatalogEvent>, req: Request, now: int)
    requires PriceCheckout(c, event, req, now).Err?
    ensures RefusalFits(c, event, req, now, PriceCheckout(c, event, req, now).error)
  {
    if event.Some? && OnSaleAt(now, event.value.startsAt, event.value.endsAt) {
      var e := event.value;
      SelectionAcceptedExactly(c, e, now, req.items);
      OffersAcceptedExactly(c, e.id, now, req.offers);
      if SelectedUnits(c, e, now, req.items).Err? {
        SelectionRefusedFirst(c, e, now, req.items);
      } else if ResolveSelections(c, e.id, now, req.offers).Err? {
        OffersRefusedAlike(c, e.id, now, req.offers);
      } else {
        var resolved := ResolveSelections(c, e.id, now, req.offers).value;
        UnitsWorth(c, e, req, now);
        if e.maxTicketsPerOrder.None? || TicketsAsked(c, req) <= e.maxTicketsPerOrder.value {
          PricingRefusedExactly(e, req, now, SelectedUnits(c, e, now, req.items).value + resolved.ticketUnits, resolved.products);
        }
      }
    }
  }
}

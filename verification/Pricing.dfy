/** Checkout pricing: every amount of an order is computed here from stored rows. */
module Pricing {
  import opened Base
  import opened Money
  import S = SalesModel

  datatype FeeMode = Buyer | Producer

  datatype CatalogEvent = CatalogEvent(
    id: nat, startsAt: Option<int>, endsAt: Option<int>, maxTicketsPerOrder: Option<nat>, feeBps: int, feeMode: FeeMode)

  datatype CatalogBatch = CatalogBatch(
    eventId: nat, ticketTypeId: nat, status: S.BatchStatus, priceCents: nat,
    startsAt: Option<int>, endsAt: Option<int>, maxPerOrder: Option<nat>)

  datatype Product = Product(active: bool, priceCents: nat)

  datatype Offer = Offer(
    active: bool, eventId: Option<nat>, productId: Option<nat>, batchId: Option<nat>, priceOverride: Option<nat>)

  datatype Catalog = Catalog(batches: map<nat, CatalogBatch>, products: map<nat, Product>, offers: map<nat, Offer>)

  datatype CouponKind = Percent | Fixed

  datatype Coupon = Coupon(
    kind: CouponKind, value: int, active: bool, startsAt: Option<int>, endsAt: Option<int>,
    maxRedemptions: Option<nat>, redemptions: nat)

  datatype CouponRejection = CouponNotFound | Inactive | NotStarted | CouponEnded | Exhausted

  datatype CheckoutError =
    | EventNotFound | BatchNotFound | NotOpen | OutsideWindow | TooManyPerBatch | TooManyPerEvent
    | OfferUnavailable | CouponRejected(reason: CouponRejection) | BadMoney(error: MoneyError) | NoContact

  /** A buyer's selection: units of a batch, or of an offer. */
  datatype Selection = Selection(id: nat, quantity: nat)

  predicate WithinWindow(now: int, startsAt: Option<int>, endsAt: Option<int>) {
    !(startsAt.Some? && now < startsAt.value) && !(endsAt.Some? && now > endsAt.value)
  }

  function Price(): S.Item -> int {
    (i: S.Item) => i.unitPriceCents
  }

  function Copies(item: S.Item, quantity: nat): seq<S.Item> {
    seq(quantity, _ => item)
  }

  // ----- Selected batches -----------------------------------------------------------------

  function BatchUnits(c: Catalog, event: CatalogEvent, now: int, s: Selection): Result<seq<S.Item>, CheckoutError> {
    if s.id !in c.batches || c.batches[s.id].eventId != event.id then Err(BatchNotFound)
    else
      var b := c.batches[s.id];
      if b.status != S.Open then Err(NotOpen)
      else if !WithinWindow(now, b.startsAt, b.endsAt) then Err(OutsideWindow)
      else if b.maxPerOrder.Some? && s.quantity > b.maxPerOrder.value then Err(TooManyPerBatch)
      else Ok(Copies(S.TicketItem(s.id, b.ticketTypeId, b.priceCents), s.quantity))
  }

  function SelectedUnits(c: Catalog, event: CatalogEvent, now: int, items: seq<Selection>): Result<seq<S.Item>, CheckoutError>
    decreases items
  {
    if items == [] then Ok([])
    else
      var n := |items| - 1;
      match SelectedUnits(c, event, now, items[..n])
      case Err(e) => Err(e)
      case Ok(units) =>
        match BatchUnits(c, event, now, items[n])
        case Err(e) => Err(e)
        case Ok(more) => Ok(units + more)
  }

  // ----- Selected offers ------------------------------------------------------------------------

  /** An offer resolves to ticket units or product units at its own or the target's price. */
  function OfferUnits(c: Catalog, eventId: nat, now: int, s: Selection): Result<seq<S.Item>, CheckoutError> {
    if s.id !in c.offers || !c.offers[s.id].active then Err(OfferUnavailable)
    else
      var o := c.offers[s.id];
      if o.eventId.Some? && o.eventId.value != eventId then Err(OfferUnavailable)
      else if o.productId.Some? then
        if o.productId.value !in c.products || !c.products[o.productId.value].active then Err(OfferUnavailable)
        else
          var p := c.products[o.productId.value];
          Ok(Copies(S.ProductItem(o.productId.value, if o.priceOverride.Some? then o.priceOverride.value else p.priceCents), s.quantity))
      else if o.batchId.Some? then
        if o.batchId.value !in c.batches || c.batches[o.batchId.value].eventId != eventId
          || c.batches[o.batchId.value].status != S.Open then Err(OfferUnavailable)
        else
          var b := c.batches[o.batchId.value];
          if !WithinWindow(now, b.startsAt, b.endsAt) then Err(OfferUnavailable)
          else
            Ok(Copies(S.TicketItem(o.batchId.value, b.ticketTypeId,
                                   if o.priceOverride.Some? then o.priceOverride.value else b.priceCents), s.quantity))
      else Ok([])
  }

  datatype Resolved = Resolved(ticketUnits: seq<S.Item>, products: seq<S.Item>)

  function ResolveSelections(c: Catalog, eventId: nat, now: int, offers: seq<Selection>): Result<Resolved, CheckoutError>
    decreases offers
  {
    if offers == [] then Ok(Resolved([], []))
    else
      var n := |offers| - 1;
      match ResolveSelections(c, eventId, now, offers[..n])
      case Err(e) => Err(e)
      case Ok(r) =>
        match OfferUnits(c, eventId, now, offers[n])
        case Err(e) => Err(e)
        case Ok(more) =>
          Ok(if more != [] && more[0].ProductItem? then r.(products := r.products + more)
             else r.(ticketUnits := r.ticketUnits + more))
  }

  // ----- Coupons -----------------------------------------------------------------------------------

  function ValidateCoupon(coupon: Option<Coupon>, now: int): Option<CouponRejection> {
    match coupon
    case None => Some(CouponNotFound)
    case Some(c) =>
      if !c.active then Some(Inactive)
      else if c.startsAt.Some? && now < c.startsAt.value then Some(NotStarted)
      else if c.endsAt.Some? && now > c.endsAt.value then Some(CouponEnded)
      else if c.maxRedemptions.Some? && c.redemptions >= c.maxRedemptions.value then Some(Exhausted)
      else None
  }

  function Min(a: int, b: int): int {
    if a < b then a else b
  }

  function Clamp(value: int, high: int): int {
    if Min(value, high) < 0 then 0 else Min(value, high)
  }

  function CouponDiscount(coupon: Coupon, subtotal: int): Result<int, MoneyError> {
    match Cents(subtotal)
    case Err(e) => Err(e)
    case Ok(s) =>
      if coupon.kind == Fixed then Ok(Clamp(coupon.value, subtotal))
      else
        match PercentageOf(s, Min(coupon.value, FULL_BPS))
        case Err(e) => Err(e)
        case Ok(raw) => Ok(Clamp(raw, subtotal))
  }

  /** The checkout's discount: none without a coupon, an error for an invalid one. */
  function ResolveDiscount(coupon: Option<Option<Coupon>>, now: int, ticketSubtotal: int): Result<int, CheckoutError> {
    match coupon
    case None => Ok(0)
    case Some(found) =>
      match ValidateCoupon(found, now)
      case Some(reason) => Err(CouponRejected(reason))
      case None =>
        match CouponDiscount(found.value, ticketSubtotal)
        case Err(e) => Err(BadMoney(e))
        case Ok(d) => Ok(Clamp(d, ticketSubtotal))
  }

  // ----- The order ---------------------------------------------------------------------------------------

  datatype Priced = Priced(
    items: seq<S.Item>, subtotalCents: int, discountCents: int, feeCents: int, feeMode: FeeMode, totalCents: int)

  datatype Request = Request(
    items: seq<Selection>, offers: seq<Selection>, coupon: Option<Option<Coupon>>, hasContact: bool)

  function PriceUnits(event: CatalogEvent, req: Request, now: int, units: seq<S.Item>, products: seq<S.Item>): Result<Priced, CheckoutError> {
    var ticketSubtotal := Sum(units, Price());
    var productSubtotal := Sum(products, Price());
    match ResolveDiscount(req.coupon, now, ticketSubtotal)
    case Err(e) => Err(e)
    case Ok(discount) =>
      var net := ticketSubtotal - discount;
      match Cents(net)
      case Err(e) => Err(BadMoney(e))
      case Ok(netCents) =>
        match PercentageOf(netCents, event.feeBps)
        case Err(e) => Err(BadMoney(e))
        case Ok(fee) =>
          if !req.hasContact then Err(NoContact)
          else
            Ok(Priced(units + products, ticketSubtotal + productSubtotal, discount, fee, event.feeMode,
                      net + productSubtotal + if event.feeMode == Buyer then fee else 0))
  }

  /** `event` is None when no PUBLISHED event has the requested id. */
  function PriceCheckout(c: Catalog, event: Option<CatalogEvent>, req: Request, now: int): Result<Priced, CheckoutError> {
    match event
    case None => Err(EventNotFound)
    case Some(e) =>
      if !WithinWindow(now, e.startsAt, e.endsAt) then Err(OutsideWindow)
      else
        match SelectedUnits(c, e, now, req.items)
        case Err(err) => Err(err)
        case Ok(selected) =>
          match ResolveSelections(c, e.id, now, req.offers)
          case Err(err) => Err(err)
          case Ok(resolved) =>
            var units := selected + resolved.ticketUnits;
            if e.maxTicketsPerOrder.Some? && |units| > e.maxTicketsPerOrder.value then Err(TooManyPerEvent)
            else PriceUnits(e, req, now, units, resolved.products)
  }
}

/** Commission rules, their resolution per unit, and the commission of an order. */
module Commission {
  import opened Base
  import opened Money

  datatype RuleKind = Percent | Fixed
  datatype BaseKind = Nominal | AfterDiscount

  /** None in a scope field means "any": an organization-wide, broad or type-independent rule. */
  datatype Rule = Rule(
    id: nat, eventId: Option<nat>, promoterId: Option<nat>, ticketTypeId: Option<nat>,
    kind: RuleKind, value: int, base: BaseKind, active: bool)

  datatype Unit = Unit(ticketTypeId: nat, unitPriceCents: nat)

  predicate Candidate(r: Rule, promoterId: nat, ticketTypeId: nat) {
    && r.active
    && (r.promoterId.None? || r.promoterId == Some(promoterId))
    && (r.ticketTypeId.None? || r.ticketTypeId == Some(ticketTypeId))
  }

  function Score(r: Rule): nat {
    (if r.eventId.Some? then 4 else 0) + (if r.promoterId.Some? then 2 else 0) + (if r.ticketTypeId.Some? then 1 else 0)
  }

  /** The scan keeps the first candidate of the highest score seen so far. */
  function Resolve(rules: seq<Rule>, promoterId: nat, ticketTypeId: nat): Option<Rule> {
    if rules == [] then None
    else
      var n := |rules| - 1;
      var best := Resolve(rules[..n], promoterId, ticketTypeId);
      if Candidate(rules[n], promoterId, ticketTypeId) && (best.None? || Score(rules[n]) > Score(best.value)) then
        Some(rules[n])
      else best
  }

  method ResolveRuleForUnit(rules: seq<Rule>, promoterId: nat, ticketTypeId: nat) returns (best: Option<Rule>)
    ensures best == Resolve(rules, promoterId, ticketTypeId)
    ensures best.Some? ==> best.value in rules && Candidate(best.value, promoterId, ticketTypeId)
    ensures forall r :: r in rules && Candidate(r, promoterId, ticketTypeId) ==>
      best.Some? && Score(r) <= Score(best.value)
  {
    best := None;
    var bestScore: int := -1;
    for k := 0 to |rules|
      invariant best == Resolve(rules[..k], promoterId, ticketTypeId)
      invariant bestScore == if best.Some? then Score(best.value) else -1
      invariant best.Some? ==> best.value in rules && Candidate(best.value, promoterId, ticketTypeId)
      invariant forall j :: 0 <= j < k && Candidate(rules[j], promoterId, ticketTypeId) ==> Score(rules[j]) <= bestScore
    {
      assert rules[..k + 1][..k] == rules[..k];
      var rule := rules[k];
      if Candidate(rule, promoterId, ticketTypeId) {
        var score := Score(rule);
        if score > bestScore {
          best, bestScore := Some(rule), score;
        }
      }
    }
    assert rules[..|rules|] == rules;
  }

  // ----- What the scan means ---------------------------------------------------------------------

  /** The rule covers the unit: it is active, for this promoter or any, for this ticket type or any. */
  predicate Covers(r: Rule, promoterId: nat, ticketTypeId: nat) {
    r.active && r.promoterId in {None, Some(promoterId)} && r.ticketTypeId in {None, Some(ticketTypeId)}
  }

  /** An event's rule goes before an organization's, then a promoter's before a broad one, then a type's. */
  predicate Outranks(a: Rule, b: Rule) {
    if a.eventId.Some? != b.eventId.Some? then a.eventId.Some?
    else if a.promoterId.Some? != b.promoterId.Some? then a.promoterId.Some?
    else a.ticketTypeId.Some? && b.ticketTypeId.None?
  }

  lemma ScoreRanks(a: Rule, b: Rule)
    ensures Score(a) > Score(b) <==> Outranks(a, b)
  {
  }

  /** The first of the listed rules that cover the unit and are outranked by none that does. */
  predicate Wins(rules: seq<Rule>, promoterId: nat, ticketTypeId: nat, i: int) {
    && 0 <= i < |rules| && Covers(rules[i], promoterId, ticketTypeId)
    && (forall j :: 0 <= j < |rules| && Covers(rules[j], promoterId, ticketTypeId) ==> !Outranks(rules[j], rules[i]))
    && (forall j :: 0 <= j < i && Covers(rules[j], promoterId, ticketTypeId) ==> Outranks(rules[i], rules[j]))
  }

  lemma NoneBetween(a: Rule, b: Rule, c: Rule)
    requires Outranks(c, a) && !Outranks(b, a)
    ensures Outranks(c, b)
  {
  }

  lemma WinnerAfter(rules: seq<Rule>, r: Rule, promoterId: nat, ticketTypeId: nat, i: int)
    requires Wins(rules, promoterId, ticketTypeId, i)
    ensures Wins(rules + [r], promoterId, ticketTypeId,
                 if Covers(r, promoterId, ticketTypeId) && Outranks(r, rules[i]) then |rules| else i)
  {
    if Covers(r, promoterId, ticketTypeId) && Outranks(r, rules[i]) {
      forall j | 0 <= j < |rules| && Covers(rules[j], promoterId, ticketTypeId) ensures Outranks(r, rules[j]) {
        NoneBetween(rules[i], rules[j], r);
      }
    }
  }

  /** The scan's rule is the winner, and there is one as soon as any rule covers the unit. */
  lemma {:induction false} ResolveWins(rules: seq<Rule>, promoterId: nat, ticketTypeId: nat)
    ensures var best := Resolve(rules, promoterId, ticketTypeId);
      if best.None? then forall j :: 0 <= j < |rules| ==> !Covers(rules[j], promoterId, ticketTypeId)
      else exists i :: 0 <= i < |rules| && Wins(rules, promoterId, ticketTypeId, i) && rules[i] == best.value
  {
    if rules != [] {
      var n := |rules| - 1;
      ResolveWins(rules[..n], promoterId, ticketTypeId);
      var before := Resolve(rules[..n], promoterId, ticketTypeId);
      assert rules == rules[..n] + [rules[n]];
      if before.Some? {
        ScoreRanks(rules[n], before.value);
        var i :| 0 <= i < n && Wins(rules[..n], promoterId, ticketTypeId, i) && rules[..n][i] == before.value;
        WinnerAfter(rules[..n], rules[n], promoterId, ticketTypeId, i);
      } else if Covers(rules[n], promoterId, ticketTypeId) {
        assert Wins(rules, promoterId, ticketTypeId, n);
      }
    }
  }

  // ----- Which rule wins does not depend on the order of the list ------------------------------

  predicate SameScope(a: Rule, b: Rule) {
    a.eventId == b.eventId && a.promoterId == b.promoterId && a.ticketTypeId == b.ticketTypeId
  }

  /** At most one ACTIVE rule per (event, promoter, ticket type) scope. */
  ghost predicate OnePerScope(rules: seq<Rule>) {
    forall i, j :: 0 <= i < j < |rules| && rules[i].active && rules[j].active ==> !SameScope(rules[i], rules[j])
  }

  predicate ForEvent(r: Rule, eventId: nat) {
    r.eventId.None? || r.eventId == Some(eventId)
  }

  /** Deactivates the active rule of the same scope, then inserts the new one. */
  function CreateSuperseding(table: seq<Rule>, rule: Rule): seq<Rule> {
    seq(|table|, (i: int) requires 0 <= i < |table| =>
      if table[i].active && SameScope(table[i], rule) then table[i].(active := false) else table[i])
    + [rule.(active := true)]
  }

  /** An older row only loses its `active` flag, and only when the new rule has its very scope. */
  predicate Superseded(before: Rule, after: Rule, rule: Rule) {
    after == if (before.eventId, before.promoterId, before.ticketTypeId) == (rule.eventId, rule.promoterId, rule.ticketTypeId)
             then before.(active := false) else before
  }

  /** The new rule comes last and is active; every older row is as it was or, in the same scope, inactive. */
  lemma SupersedeExact(table: seq<Rule>, rule: Rule)
    ensures var out := CreateSuperseding(table, rule);
      && |out| == |table| + 1 && out[|table|] == rule.(active := true)
      && forall k :: 0 <= k < |table| ==> Superseded(table[k], out[k], rule)
  {
  }

  function Build(created: seq<Rule>): seq<Rule> {
    if created == [] then []
    else CreateSuperseding(Build(created[..|created| - 1]), created[|created| - 1])
  }

  /** Superseding keeps one active rule per scope through any history of rule creations. */
  lemma {:induction false} HistoryKeepsOnePerScope(created: seq<Rule>)
    ensures OnePerScope(Build(created))
  {
    if created != [] {
      HistoryKeepsOnePerScope(created[..|created| - 1]);
    }
  }

  function ActiveForEvent(table: seq<Rule>, eventId: nat): seq<Rule> {
    if table == [] then []
    else
      var n := |table| - 1;
      ActiveForEvent(table[..n], eventId) + if table[n].active && ForEvent(table[n], eventId) then [table[n]] else []
  }

  lemma {:induction false} ActiveForEventKeeps(table: seq<Rule>, eventId: nat)
    requires OnePerScope(table)
    ensures OnePerScope(ActiveForEvent(table, eventId))
    ensures forall r :: r in ActiveForEvent(table, eventId) <==> r in table && r.active && ForEvent(r, eventId)
  {
    if table != [] {
      var n := |table| - 1;
      ActiveForEventKeeps(table[..n], eventId);
      assert table == table[..n] + [table[n]];
      var rest := ActiveForEvent(table[..n], eventId);
      forall i | 0 <= i < |rest| && table[n].active ensures !SameScope(rest[i], table[n]) {
        assert rest[i] in table[..n];
      }
    }
  }

  /** The stored rules: one transaction deactivates the rule of the same scope and inserts the new one. */
  class RuleBook {
    var rules: seq<Rule>

    constructor ()
      ensures rules == [] && OnePerScope(rules)
    {
      rules := [];
    }

    method Supersede(rule: Rule)
      modifies this
      ensures rules == CreateSuperseding(old(rules), rule)
      ensures |rules| == |old(rules)| + 1 && rules[|old(rules)|] == rule.(active := true)
      ensures forall k :: 0 <= k < |old(rules)| ==> Superseded(old(rules)[k], rules[k], rule)
      ensures OnePerScope(old(rules)) ==> OnePerScope(rules)
    {
      var kept: seq<Rule> := [];
      for k := 0 to |rules|
        invariant rules == old(rules) && |kept| == k
        invariant forall j :: 0 <= j < k ==>
          kept[j] == if rules[j].active && SameScope(rules[j], rule) then rules[j].(active := false) else rules[j]
      {
        var r := rules[k];
        kept := kept + [if r.active && SameScope(r, rule) then r.(active := false) else r];
      }
      rules := kept + [rule.(active := true)];
      SupersedeExact(old(rules), rule);
    }

    method ListActiveByEvent(eventId: nat) returns (active: seq<Rule>)
      ensures active == ActiveForEvent(rules, eventId)
      ensures OnePerScope(rules) ==> OnePerScope(active)
    {
      active := [];
      for k := 0 to |rules|
        invariant active == ActiveForEvent(rules[..k], eventId)
      {
        assert rules[..k + 1][..k] == rules[..k];
        if rules[k].active && ForEvent(rules[k], eventId) {
          active := active + [rules[k]];
        }
      }
      assert rules[..|rules|] == rules;
      if OnePerScope(rules) {
        ActiveForEventKeeps(rules, eventId);
      }
    }
  }

  /** Among the rules of one event the score tells the scope, so it separates candidates. */
  lemma ScoreTellsScope(a: Rule, b: Rule, eventId: nat, promoterId: nat, ticketTypeId: nat)
    requires Candidate(a, promoterId, ticketTypeId) && Candidate(b, promoterId, ticketTypeId)
    requires ForEvent(a, eventId) && ForEvent(b, eventId)
    ensures Score(a) == Score(b) <==> SameScope(a, b)
  {
  }

  lemma {:induction false} ResolveBest(rules: seq<Rule>, promoterId: nat, ticketTypeId: nat)
    ensures var best := Resolve(rules, promoterId, ticketTypeId);
      && (best.Some? ==> best.value in rules && Candidate(best.value, promoterId, ticketTypeId))
      && (forall r :: r in rules && Candidate(r, promoterId, ticketTypeId) ==>
            best.Some? && Score(r) <= Score(best.value))
  {
    if rules != [] {
      var n := |rules| - 1;
      ResolveBest(rules[..n], promoterId, ticketTypeId);
      assert rules == rules[..n] + [rules[n]];
    }
  }

  /** Two lists of the same rules, one per scope, resolve to the same rule. */
  lemma SameRulesResolveAlike(rules: seq<Rule>, listed: seq<Rule>, eventId: nat, promoterId: nat, ticketTypeId: nat)
    requires OnePerScope(listed) && (forall r :: r in rules <==> r in listed)
    requires forall r :: r in listed ==> r.active && ForEvent(r, eventId)
    ensures Resolve(rules, promoterId, ticketTypeId) == Resolve(listed, promoterId, ticketTypeId)
  {
    ResolveBest(rules, promoterId, ticketTypeId);
    ResolveBest(listed, promoterId, ticketTypeId);
    var a, b := Resolve(rules, promoterId, ticketTypeId), Resolve(listed, promoterId, ticketTypeId);
    if a.Some? {
      ScoreTellsScope(a.value, b.value, eventId, promoterId, ticketTypeId);
      var i :| 0 <= i < |listed| && listed[i] == a.value;
      var j :| 0 <= j < |listed| && listed[j] == b.value;
    }
  }

  /**
   * For the rules of an event, whatever their creation history, every ordering of the list
   * resolves to the same rule: the most specific active candidate.
   */
  lemma ResolutionIgnoresOrder(created: seq<Rule>, eventId: nat, rules: seq<Rule>, promoterId: nat, ticketTypeId: nat)
    requires multiset(rules) == multiset(ActiveForEvent(Build(created), eventId))
    ensures Resolve(rules, promoterId, ticketTypeId) == Resolve(ActiveForEvent(Build(created), eventId), promoterId, ticketTypeId)
  {
    var listed := ActiveForEvent(Build(created), eventId);
    HistoryKeepsOnePerScope(created);
    ActiveForEventKeeps(Build(created), eventId);
    forall r ensures r in rules <==> r in listed {
      assert r in multiset(rules) <==> r in multiset(listed);
    }
    SameRulesResolveAlike(rules, listed, eventId, promoterId, ticketTypeId);
  }

  // ----- The base of one unit ------------------------------------------------------------------------

  datatype OrderAmounts = OrderAmounts(subtotalCents: int, discountCents: int)

  function DiscountBps(o: OrderAmounts): int
    requires o.subtotalCents > 0
  {
    RoundDiv(o.discountCents * FULL_BPS, o.subtotalCents)
  }

  function UnitBase(price: nat, base: BaseKind, o: OrderAmounts): Result<nat, MoneyError> {
    match Cents(price)
    case Err(e) => Err(e)
    case Ok(gross) =>
      if base == Nominal || o.discountCents <= 0 || o.subtotalCents <= 0 then Ok(gross)
      else
        var bps := if DiscountBps(o) < FULL_BPS then DiscountBps(o) else FULL_BPS;
        match PercentageOf(gross, bps)
        case Err(e) => Err(e)
        case Ok(share) => Cents(if price - share < 0 then 0 else price - share)
  }

  /** The unit's rounded share of the order's discount. */
  function Share(price: nat, o: OrderAmounts): int {
    if o.discountCents <= 0 || o.subtotalCents <= 0 then 0 else Bps(price, DiscountBps(o))
  }

  lemma DiscountBpsWithin(o: OrderAmounts)
    requires 0 <= o.discountCents <= o.subtotalCents && o.subtotalCents > 0
    ensures 0 <= DiscountBps(o) <= FULL_BPS
    ensures -o.subtotalCents <= 2 * (o.subtotalCents * DiscountBps(o) - o.discountCents * FULL_BPS) <= o.subtotalCents
  {
    var s, q := o.subtotalCents, DiscountBps(o);
    RoundDivNearest(o.discountCents * FULL_BPS, s, q);
    if q > FULL_BPS {
      MulLe(s, FULL_BPS + 1, q);
    } else if q < 0 {
      MulLe(s, q, -1);
    }
  }

  /** The unit's base: its price, or, after a discount, its price less its share of at most all of it. */
  function BaseOf(price: nat, base: BaseKind, o: OrderAmounts): int {
    if base == AfterDiscount && o.discountCents > 0 && o.subtotalCents > 0 then
      price - Bps(price, if DiscountBps(o) > FULL_BPS then FULL_BPS else DiscountBps(o))
    else price
  }

  lemma CappedRate(o: OrderAmounts)
    requires o.discountCents > 0 && o.subtotalCents > 0
    ensures 0 <= (if DiscountBps(o) < FULL_BPS then DiscountBps(o) else FULL_BPS)
  {
    RoundDivNearest(o.discountCents * FULL_BPS, o.subtotalCents, DiscountBps(o));
    if DiscountBps(o) < 0 {
      MulLe(o.subtotalCents, DiscountBps(o), -1);
    }
  }

  lemma CappedShare(price: nat, o: OrderAmounts)
    requires o.discountCents > 0 && o.subtotalCents > 0
    ensures var rate := if DiscountBps(o) < FULL_BPS then DiscountBps(o) else FULL_BPS;
      0 <= rate && 0 <= Bps(price, rate) <= price
  {
    CappedRate(o);
    BpsWithin(price, if DiscountBps(o) < FULL_BPS then DiscountBps(o) else FULL_BPS);
  }

  /**
   * The base of one unit, for every order: a NOMINAL unit counts its whole price whatever the discount, an
   * AFTER_DISCOUNT one its price less its share; for a discount within the subtotal no guard cuts in.
   */
  lemma UnitBaseExact(price: nat, base: BaseKind, o: OrderAmounts)
    requires price <= MAX_SAFE_INTEGER
    ensures 0 <= BaseOf(price, base, o) <= price
    ensures UnitBase(price, base, o) == Ok(BaseOf(price, base, o))
    ensures UnitBase(price, Nominal, o) == Ok(price)
    ensures 0 <= o.discountCents <= o.subtotalCents ==>
      0 <= Share(price, o) <= price && UnitBase(price, AfterDiscount, o) == Ok(price - Share(price, o))
  {
    if o.discountCents > 0 && o.subtotalCents > 0 {
      CappedShare(price, o);
      if o.discountCents <= o.subtotalCents {
        DiscountBpsWithin(o);
      }
    }
  }

  // ----- The rounding bound -----------------------------------------------------------------------------

  function UnitPrice(): Unit -> int {
    (u: Unit) => u.unitPriceCents
  }

  function UnitShare(o: OrderAmounts): Unit -> int {
    (u: Unit) => Share(u.unitPriceCents, o)
  }

  function AfterDiscountBase(o: OrderAmounts): Unit -> int {
    (u: Unit) => match UnitBase(u.unitPriceCents, AfterDiscount, o) case Ok(b) => b case Err(_) => 0
  }

  predicate SafePrices(units: seq<Unit>) {
    forall k :: 0 <= k < |units| ==> units[k].unitPriceCents <= MAX_SAFE_INTEGER
  }

  lemma {:induction false} SharesNearRate(units: seq<Unit>, o: OrderAmounts)
    requires 0 < o.discountCents <= o.subtotalCents
    ensures -FULL_BPS * |units|
      <= 2 * (FULL_BPS * Sum(units, UnitShare(o)) - Sum(units, UnitPrice()) * DiscountBps(o))
      <= FULL_BPS * |units|
  {
    if units != [] {
      var n := |units| - 1;
      SharesNearRate(units[..n], o);
      BpsError(units[n].unitPriceCents, DiscountBps(o));
      assert (Sum(units[..n], UnitPrice()) + units[n].unitPriceCents) * DiscountBps(o)
        == Sum(units[..n], UnitPrice()) * DiscountBps(o) + units[n].unitPriceCents * DiscountBps(o);
    }
  }

  lemma {:induction false} BasesAreRests(units: seq<Unit>, o: OrderAmounts)
    requires 0 <= o.discountCents <= o.subtotalCents && SafePrices(units)
    ensures Sum(units, AfterDiscountBase(o)) == Sum(units, UnitPrice()) - Sum(units, UnitShare(o))
  {
    if units != [] {
      var n := |units| - 1;
      BasesAreRests(units[..n], o);
      UnitBaseExact(units[n].unitPriceCents, AfterDiscount, o);
    }
  }

  /** The arithmetic core: combining the two rounding errors, scaled by the subtotal s. */
  lemma CombineErrors(shares: int, t: int, s: int, d: int, bps: int, slack: int)
    requires s >= 0 && t >= 0
    requires -slack <= 2 * (FULL_BPS * shares - t * bps) <= slack
    requires -s <= 2 * (s * bps - d * FULL_BPS) <= s
    ensures -Slack(s, slack, t) <= 2 * FULL_BPS * Miss(s, t, shares, d) <= Slack(s, slack, t)
  {
    var a, b := 2 * (FULL_BPS * shares - t * bps), 2 * (s * bps - d * FULL_BPS);
    MulLe(s, a, slack);
    MulLe(s, -slack, a);
    MulLe(t, b, s);
    MulLe(t, -s, b);
    MissFromErrors(shares, t, s, d, bps);
    assert Slack(s, slack, t) == s * slack + t * s;
    assert s * -slack == -(s * slack) && t * -s == -(t * s);
  }

  lemma MissFromErrors(shares: int, t: int, s: int, d: int, bps: int)
    ensures 2 * FULL_BPS * Miss(s, t, shares, d)
      == -(s * (2 * (FULL_BPS * shares - t * bps))) - t * (2 * (s * bps - d * FULL_BPS))
  {
    var x, y, z := s * shares, s * (t * bps), t * d;
    assert t * (s * bps) == y;
    assert s * (2 * (FULL_BPS * shares - t * bps)) == 2 * (FULL_BPS * x - y);
    assert t * (2 * (s * bps - d * FULL_BPS)) == 2 * (y - z * FULL_BPS);
    assert s * (t - shares) == s * t - x;
  }

  /** How far, scaled by s, bases of t - shares are from the exact rest t - t * d / s. */
  function Miss(s: int, t: int, shares: int, d: int): int {
    s * (t - shares) - (s * t - t * d)
  }

  function Slack(s: int, slack: int, t: int): int {
    s * (slack + t)
  }

  /**
   * Discount-share rounding bound, products included: scaled by the subtotal s, the ticket
   * bases miss the exact proportional rest by at most s * (n/2 + t/20000).
   */
  lemma RoundingBound(units: seq<Unit>, o: OrderAmounts)
    requires 0 <= o.discountCents <= o.subtotalCents && SafePrices(units)
    ensures var t, s := Sum(units, UnitPrice()), o.subtotalCents;
      var miss := s * Sum(units, AfterDiscountBase(o)) - (s * t - t * o.discountCents);
      -(s * (FULL_BPS * |units| + t)) <= 2 * FULL_BPS * miss <= s * (FULL_BPS * |units| + t)
  {
    var t, s, d := Sum(units, UnitPrice()), o.subtotalCents, o.discountCents;
    var shares := Sum(units, UnitShare(o));
    SumNonNegative(units, UnitPrice());
    BasesAreRests(units, o);
    if d > 0 {
      DiscountBpsWithin(o);
      SharesNearRate(units, o);
      CombineErrors(shares, t, s, d, DiscountBps(o), FULL_BPS * |units|);
    } else {
      SumZero(units, UnitShare(o));
      NoDiscountNoMiss(s, t, FULL_BPS * |units|);
    }
    assert Miss(s, t, shares, d) == s * Sum(units, AfterDiscountBase(o)) - (s * t - t * d);
  }

  lemma NoDiscountNoMiss(s: int, t: int, slack: int)
    requires s >= 0 && t >= 0 && slack >= 0
    ensures Miss(s, t, 0, 0) == 0 <= Slack(s, slack, t)
  {
    MulLe(s, 0, slack + t);
  }

  /** For a ticket-only order: the bases add up to subtotal - discount within n/2 + subtotal/20000 cents. */
  lemma TicketOnlyRoundingBound(units: seq<Unit>, o: OrderAmounts)
    requires 0 <= o.discountCents <= o.subtotalCents && SafePrices(units)
    requires o.subtotalCents == Sum(units, UnitPrice())
    ensures var miss := Sum(units, AfterDiscountBase(o)) - (o.subtotalCents - o.discountCents);
      -(FULL_BPS * |units| + o.subtotalCents) <= 2 * FULL_BPS * miss <= FULL_BPS * |units| + o.subtotalCents
  {
    RoundingBound(units, o);
    if o.subtotalCents > 0 {
      Unscale(o.subtotalCents, Sum(units, AfterDiscountBase(o)), o.discountCents, FULL_BPS * |units|);
    } else {
      BasesAreRests(units, o);
      SumZero(units, UnitShare(o));
    }
  }

  /** Dividing the scaled bound of a ticket-only order by its positive subtotal. */
  lemma Unscale(s: int, bases: int, d: int, slack: int)
    requires s > 0
    requires -(s * (slack + s)) <= 2 * FULL_BPS * (s * bases - (s * s - s * d)) <= s * (slack + s)
    ensures -(slack + s) <= 2 * FULL_BPS * (bases - (s - d)) <= slack + s
  {
    var miss := bases - (s - d);
    assert s * bases - (s * s - s * d) == s * miss;
    assert 2 * FULL_BPS * (s * miss) == s * (2 * FULL_BPS * miss);
    CancelFactor(s, 2 * FULL_BPS * miss, slack + s);
  }

  lemma CancelFactor(s: int, a: int, b: int)
    requires s > 0 && -(s * b) <= s * a <= s * b
    ensures -b <= a <= b
  {
    if a > b {
      assert s * (b + 1) == s * b + s;
      MulLe(s, b + 1, a);
    }
    if a < -b {
      assert s * (-b - 1) == -(s * b) - s;
      MulLe(s, a, -b - 1);
    }
  }

  // ----- The commission of an order ------------------------------------------------------------------------

  datatype Snapshot = Snapshot(ruleId: nat, kind: RuleKind, value: int, base: BaseKind)

  datatype Computation = Computation(quantity: nat, baseCents: int, amountCents: int, rules: seq<Snapshot>)

  datatype UnitResult = NoRule | Earned(rule: Rule, base: nat, amount: nat) | Invalid(error: MoneyError)

  function UnitCommission(unit: Unit, rules: seq<Rule>, promoterId: nat, o: OrderAmounts): UnitResult {
    match Resolve(rules, promoterId, unit.ticketTypeId)
    case None => NoRule
    case Some(rule) =>
      match UnitBase(unit.unitPriceCents, rule.base, o)
      case Err(e) => Invalid(e)
      case Ok(base) =>
        match (if rule.kind == Percent then PercentageOf(base, rule.value) else Cents(rule.value))
        case Err(e) => Invalid(e)
        case Ok(amount) => Earned(rule, base, amount)
  }

  // ----- What one unit earns, told from the rules ----------------------------------------------------

  function Pays(r: Rule, base: int): int {
    if r.kind == Percent then Bps(base, r.value) else r.value
  }

  /** The unit's price, the rule's value and what it pays are all safe. */
  predicate PaysSafely(r: Rule, price: nat, o: OrderAmounts) {
    price <= MAX_SAFE_INTEGER && 0 <= r.value <= MAX_SAFE_INTEGER && Pays(r, BaseOf(price, r.base, o)) <= MAX_SAFE_INTEGER
  }

  /** `r` is what the unit must come to under the rule that wins for it. */
  predicate EarningFits(u: Unit, rules: seq<Rule>, promoterId: nat, o: OrderAmounts, r: UnitResult) {
    match r
    case NoRule => forall j :: 0 <= j < |rules| ==> !Covers(rules[j], promoterId, u.ticketTypeId)
    case Earned(rule, base, amount) =>
      && (exists i :: 0 <= i < |rules| && Wins(rules, promoterId, u.ticketTypeId, i) && rules[i] == rule)
      && PaysSafely(rule, u.unitPriceCents, o)
      && base == BaseOf(u.unitPriceCents, rule.base, o) && amount == Pays(rule, base)
    case Invalid(_) =>
      exists i :: 0 <= i < |rules| && Wins(rules, promoterId, u.ticketTypeId, i) && !PaysSafely(rules[i], u.unitPriceCents, o)
  }

  /**
   * What one unit earns: nothing when no rule covers it; otherwise the winning rule's rounded percentage of
   * the unit's base or its fixed value, and an error exactly when an amount on the way is not safe.
   */
  lemma UnitEarnsExactly(u: Unit, rules: seq<Rule>, promoterId: nat, o: OrderAmounts)
    ensures EarningFits(u, rules, promoterId, o, UnitCommission(u, rules, promoterId, o))
  {
    ResolveWins(rules, promoterId, u.ticketTypeId);
    var best := Resolve(rules, promoterId, u.ticketTypeId);
    if best.Some? && u.unitPriceCents <= MAX_SAFE_INTEGER {
      UnitBaseExact(u.unitPriceCents, best.value.base, o);
      if best.value.value >= 0 {
        BpsNonNegative(BaseOf(u.unitPriceCents, best.value.base, o), best.value.value);
      }
    }
  }

  function EarnedBase(): UnitResult -> int {
    (r: UnitResult) => if r.Earned? then r.base else 0
  }

  function EarnedAmount(): UnitResult -> int {
    (r: UnitResult) => if r.Earned? then r.amount else 0
  }

  function EarnedUnits(): UnitResult -> int {
    (r: UnitResult) => if r.Earned? then 1 else 0
  }

  function SnapshotOf(r: Rule): Snapshot {
    Snapshot(r.id, r.kind, r.value, r.base)
  }

  predicate HasSnapshot(rules: seq<Snapshot>, id: nat) {
    exists k :: 0 <= k < |rules| && rules[k].ruleId == id
  }

  function UnitResults(units: seq<Unit>, rules: seq<Rule>, promoterId: nat, o: OrderAmounts): seq<UnitResult> {
    seq(|units|, (k: int) requires 0 <= k < |units| => UnitCommission(units[k], rules, promoterId, o))
  }

  predicate EarnedBy(r: UnitResult, s: Snapshot) {
    r.Earned? && s == Snapshot(r.rule.id, r.rule.kind, r.rule.value, r.rule.base)
  }

  /** One snapshot for each distinct rule the units earned by, and no other. */
  predicate SnapshotsOf(used: seq<Snapshot>, results: seq<UnitResult>) {
    && (forall i, j :: 0 <= i < j < |used| ==> used[i].ruleId != used[j].ruleId)
    && (forall s :: s in used ==> exists k :: 0 <= k < |results| && EarnedBy(results[k], s))
    && (forall k :: 0 <= k < |results| && results[k].Earned? ==> HasSnapshot(used, results[k].rule.id))
  }

  lemma SnapshotsPush(used: seq<Snapshot>, results: seq<UnitResult>, r: UnitResult)
    requires SnapshotsOf(used, results)
    ensures SnapshotsOf(if r.Earned? then AddSnapshot(used, SnapshotOf(r.rule)) else used, results + [r])
  {
    var out := if r.Earned? then AddSnapshot(used, SnapshotOf(r.rule)) else used;
    forall s | s in out ensures exists k :: 0 <= k < |results + [r]| && EarnedBy((results + [r])[k], s) {
      if s in used {
        var k :| 0 <= k < |results| && EarnedBy(results[k], s);
        assert (results + [r])[k] == results[k];
      } else {
        assert (results + [r])[|results|] == r && EarnedBy(r, s);
      }
    }
  }

  predicate SomeInvalid(results: seq<UnitResult>) {
    exists k :: 0 <= k < |results| && results[k].Invalid?
  }

  /** Each unit's result is what the unit must come to. */
  predicate AllFit(units: seq<Unit>, rules: seq<Rule>, promoterId: nat, o: OrderAmounts, results: seq<UnitResult>) {
    |results| == |units| && forall k :: 0 <= k < |units| ==> EarningFits(units[k], rules, promoterId, o, results[k])
  }

  lemma UnitsEarnExactly(units: seq<Unit>, rules: seq<Rule>, promoterId: nat, o: OrderAmounts)
    ensures AllFit(units, rules, promoterId, o, UnitResults(units, rules, promoterId, o))
  {
    forall k | 0 <= k < |units|
      ensures EarningFits(units[k], rules, promoterId, o, UnitResults(units, rules, promoterId, o)[k])
    {
      UnitEarnsExactly(units[k], rules, promoterId, o);
    }
  }

  /** No unit failed, and the totals and snapshots are those of the units that earned. */
  predicate Accumulated(results: seq<UnitResult>, c: Computation) {
    && !SomeInvalid(results)
    && c.quantity == Sum(results, EarnedUnits())
    && c.baseCents == Sum(results, EarnedBase())
    && c.amountCents == Sum(results, EarnedAmount())
    && c.amountCents >= 0
    && SnapshotsOf(c.rules, results)
  }

  lemma AccumulatedPush(results: seq<UnitResult>, r: UnitResult, c: Computation)
    requires Accumulated(results, c) && !r.Invalid?
    ensures Accumulated(results + [r],
      if r.NoRule? then c
      else Computation(c.quantity + 1, c.baseCents + r.base, c.amountCents + r.amount, AddSnapshot(c.rules, SnapshotOf(r.rule))))
  {
    SnapshotsPush(c.rules, results, r);
    SumPush(results, r, EarnedUnits());
    SumPush(results, r, EarnedBase());
    SumPush(results, r, EarnedAmount());
  }

  lemma ResultsNext(units: seq<Unit>, k: nat, rules: seq<Rule>, promoterId: nat, o: OrderAmounts)
    requires k < |units|
    ensures UnitResults(units[..k + 1], rules, promoterId, o)
      == UnitResults(units[..k], rules, promoterId, o) + [UnitCommission(units[k], rules, promoterId, o)]
  {
  }

  /**
   * The accumulation loop: quantities, bases and amounts of exactly the units that have a
   * rule, and one snapshot per distinct rule used. It fails exactly when some unit's amount
   * is not a valid sum of cents.
   */
  method ComputeCommission(units: seq<Unit>, rules: seq<Rule>, promoterId: nat, o: OrderAmounts)
    returns (r: Result<Computation, MoneyError>)
    ensures r.Err? <==> SomeInvalid(UnitResults(units, rules, promoterId, o))
    ensures r.Ok? ==> Accumulated(UnitResults(units, rules, promoterId, o), r.value)
    ensures AllFit(units, rules, promoterId, o, UnitResults(units, rules, promoterId, o))
  {
    var quantity, baseTotal, amountTotal := 0, 0, 0;
    var used: seq<Snapshot> := [];
    for k := 0 to |units|
      invariant Accumulated(UnitResults(units[..k], rules, promoterId, o), Computation(quantity, baseTotal, amountTotal, used))
    {
      ghost var earned := UnitCommission(units[k], rules, promoterId, o);
      ResultsNext(units, k, rules, promoterId, o);
      if !earned.Invalid? {
        AccumulatedPush(UnitResults(units[..k], rules, promoterId, o), earned, Computation(quantity, baseTotal, amountTotal, used));
      }
      var best := ResolveRuleForUnit(rules, promoterId, units[k].ticketTypeId);
      if best.Some? {
        var rule := best.value;
        var base := UnitBase(units[k].unitPriceCents, rule.base, o);
        if base.Err? {
          assert UnitResults(units, rules, promoterId, o)[k] == earned;
          UnitsEarnExactly(units, rules, promoterId, o);
          return Err(base.error);
        }
        var amount := if rule.kind == Percent then PercentageOf(base.value, rule.value) else Cents(rule.value);
        if amount.Err? {
          assert UnitResults(units, rules, promoterId, o)[k] == earned;
          UnitsEarnExactly(units, rules, promoterId, o);
          return Err(amount.error);
        }
        quantity := quantity + 1;
        baseTotal := baseTotal + base.value;
        amountTotal := amountTotal + amount.value;
        used := AddSnapshot(used, SnapshotOf(rule));
      }
    }
    assert units[..|units|] == units;
    UnitsEarnExactly(units, rules, promoterId, o);
    return Ok(Computation(quantity, baseTotal, amountTotal, used));
  }

  function AddSnapshot(used: seq<Snapshot>, s: Snapshot): (r: seq<Snapshot>)
    ensures HasSnapshot(r, s.ruleId)
    ensures forall id :: HasSnapshot(used, id) ==> HasSnapshot(r, id)
    ensures forall i :: 0 <= i < |r| ==> r[i] in used || r[i] == s
    ensures (forall i, j :: 0 <= i < j < |used| ==> used[i].ruleId != used[j].ruleId) ==>
      forall i, j :: 0 <= i < j < |r| ==> r[i].ruleId != r[j].ruleId
  {
    if HasSnapshot(used, s.ruleId) then used
    else
      var r := used + [s];
      assert r[|used|] == s;
      assert forall k :: 0 <= k < |used| ==> r[k] == used[k];
      r
  }

  /** Percentage rules of at most 100% never pay more than the base they are computed from. */
  lemma PercentCommissionWithinBase(units: seq<Unit>, rules: seq<Rule>, promoterId: nat, o: OrderAmounts)
    requires forall r :: r in rules ==> r.kind == Percent && 0 <= r.value <= FULL_BPS
    ensures Sum(UnitResults(units, rules, promoterId, o), EarnedAmount())
      <= Sum(UnitResults(units, rules, promoterId, o), EarnedBase())
  {
    var results := UnitResults(units, rules, promoterId, o);
    forall k | 0 <= k < |results| ensures EarnedAmount()(results[k]) <= EarnedBase()(results[k]) {
      if results[k].Earned? {
        ResolveBest(rules, promoterId, units[k].ticketTypeId);
        BpsWithin(results[k].base, results[k].rule.value);
      }
    }
    SumLe(results, EarnedAmount(), EarnedBase());
  }
}

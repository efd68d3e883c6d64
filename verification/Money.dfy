/** Integer cents: the guarded Cents values and the half-up percentage every amount uses. */
module Money {
  import opened Base

  const MAX_SAFE_INTEGER := 9007199254740991

  datatype MoneyError = InvalidMoney(value: int)

  function Cents(value: int): Result<nat, MoneyError> {
    if 0 <= value <= MAX_SAFE_INTEGER then Ok(value) else Err(InvalidMoney(value))
  }

  /** Cents are the non-negative integers a double holds exactly. */
  lemma CentsExact(value: int)
    ensures Cents(value) == if 0 <= value < 0x20_0000_0000_0000 then Ok(value) else Err(InvalidMoney(value))
  {
  }

  /** Rounding of the exact rational n/d to the nearest integer, halves up: floor(n/d + 1/2). */
  function RoundDiv(n: int, d: nat): int
    requires d > 0
  {
    (2 * n + d) / (2 * d)
  }

  /** The rounded value is the unique integer q with q - 1/2 <= n/d < q + 1/2. */
  lemma RoundDivNearest(n: int, d: nat, q: int)
    requires d > 0
    ensures q == RoundDiv(n, d) <==> 2 * (d * q) - d <= 2 * n < 2 * (d * q) + d
  {
    FloorUnique(2 * n + d, 2 * d, q);
    assert (2 * d) * q == 2 * (d * q);
  }

  const FULL_BPS := 10000

  function Bps(amount: int, basisPoints: int): int {
    RoundDiv(amount * basisPoints, FULL_BPS)
  }

  /** `basisPoints` of `amount`, or the error of an invalid rate or an unsafe result. */
  function PercentageOf(amount: nat, basisPoints: int): Result<nat, MoneyError> {
    if !(0 <= basisPoints <= MAX_SAFE_INTEGER) then Err(InvalidMoney(basisPoints))
    else Cents(Bps(amount, basisPoints))
  }

  /** Up to 100% a percentage is at least zero and never more than the amount; 0% is 0, 100% is all. */
  lemma BpsWithin(amount: nat, basisPoints: nat)
    requires basisPoints <= 10000
    ensures 0 <= Bps(amount, basisPoints) <= amount
    ensures basisPoints == 0 ==> Bps(amount, basisPoints) == 0
    ensures basisPoints == 10000 ==> Bps(amount, basisPoints) == amount
  {
    assert 0 <= amount * basisPoints <= amount * 10000;
  }

  lemma BpsNonNegative(amount: nat, basisPoints: nat)
    ensures Bps(amount, basisPoints) >= 0
  {
    assert amount * basisPoints >= 0;
  }

  /** Half a cent is the most any single rounding is off. */
  lemma BpsError(amount: int, basisPoints: int)
    ensures -10000 <= 2 * (10000 * Bps(amount, basisPoints) - amount * basisPoints) <= 10000
  {
    RoundDivNearest(amount * basisPoints, FULL_BPS, Bps(amount, basisPoints));
  }

  /** An accepted percentage of a safe amount at most 100% never fails. */
  lemma PercentageOfSafe(amount: nat, basisPoints: nat)
    requires amount <= MAX_SAFE_INTEGER && basisPoints <= FULL_BPS
    ensures PercentageOf(amount, basisPoints) == Ok(Bps(amount, basisPoints))
  {
    BpsWithin(amount, basisPoints);
  }
}

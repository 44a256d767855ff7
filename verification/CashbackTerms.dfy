/**
 The frozen schedule of a cashback plan: T months, M per month and a balloon in
 the last month (internal/cashback/calculator.go).  All amounts are integer minor
 units.  The divisions below have positive operands, where Go's truncation and
 Dafny's Euclidean division agree.
 */
module CashbackTerms {

  const CASHBACK_K := 156000
  const MAX_PRICE_MINOR := 100_000_000_000_000

  datatype PlanTerms = PlanTerms(totalMonths: int, monthlyMinor: int, lastMinor: int)

  datatype TermsError = PriceOutOfRange | CommissionOutOfRange | DegenerateSchedule | BalloonBelowRegular

  datatype TermsResult = Terms(terms: PlanTerms) | InvalidPlanInput(reason: TermsError)

  function ComputePlanTerms(priceMinor: int, commissionBps: int): TermsResult {
    if priceMinor <= 0 || priceMinor > MAX_PRICE_MINOR then InvalidPlanInput(PriceOutOfRange)
    else if commissionBps < 100 || commissionBps > 10000 then InvalidPlanInput(CommissionOutOfRange)
    else
      var totalMonths := CASHBACK_K / commissionBps;
      var monthly := (priceMinor * commissionBps) / CASHBACK_K;
      if totalMonths < 1 || monthly < 1 then InvalidPlanInput(DegenerateSchedule)
      else
        var lastMonth := priceMinor - (totalMonths - 1) * monthly;
        if lastMonth < monthly then InvalidPlanInput(BalloonBelowRegular)
        else Terms(PlanTerms(totalMonths, monthly, lastMonth))
  }

  /** The amount of the n-th installment, counted from 1; 0 when n is out of range. */
  function InstallmentAmount(terms: PlanTerms, n: int): int {
    if n < 1 || n > terms.totalMonths then 0
    else if n == terms.totalMonths then terms.lastMinor
    else terms.monthlyMinor
  }

  /** Sum of installments 1..k. */
  function PaidThrough(terms: PlanTerms, k: nat): int {
    if k == 0 then 0 else PaidThrough(terms, k - 1) + InstallmentAmount(terms, k)
  }

  /** What a price and a commission must satisfy for a schedule to exist. */
  predicate Schedulable(priceMinor: int, commissionBps: int) {
    && 0 < priceMinor <= MAX_PRICE_MINOR
    && 100 <= commissionBps <= 10000
    && priceMinor * commissionBps >= CASHBACK_K
  }

  /** The facts every other proof needs about a schedule for price `price`. */
  predicate ExactSchedule(terms: PlanTerms, price: int) {
    && terms.totalMonths >= 1
    && 1 <= terms.monthlyMinor <= terms.lastMinor
    && (terms.totalMonths - 1) * terms.monthlyMinor + terms.lastMinor == price
  }

  // ---- arithmetic of the two truncated divisions ----

  lemma {:induction false} MonthsBounds(bps: int)
    requires 100 <= bps <= 10000
    ensures 15 <= CASHBACK_K / bps <= 1560
    ensures (CASHBACK_K / bps) * bps <= CASHBACK_K < (CASHBACK_K / bps + 1) * bps
  { }

  lemma {:induction false} MulMonotone(a: int, b: int, c: int)
    requires 0 <= c && a <= b
    ensures a * c <= b * c
  { }

  lemma {:induction false} CancelFactor(a: int, b: int, c: int)
    requires 0 < c && a * c <= b * c
    ensures a <= b
  { }

  lemma {:induction false} CancelFactorStrict(a: int, b: int, c: int)
    requires 0 < c && a * c < b * c
    ensures a < b
  { }

  /** T*M never exceeds the price, and the price is below (T+1)*(M+1). */
  lemma {:induction false} PriceBetweenProducts(price: int, bps: int, t: int, m: int)
    requires 0 < price && 0 < bps && 0 <= t && 0 <= m
    requires t * bps <= CASHBACK_K < (t + 1) * bps
    requires m * CASHBACK_K <= price * bps < (m + 1) * CASHBACK_K
    ensures t * m <= price < (t + 1) * (m + 1)
  {
    calc {
      (t * m) * bps;
      (t * bps) * m;
    <= { MulMonotone(t * bps, CASHBACK_K, m); }
      CASHBACK_K * m;
    <= price * bps;
    }
    CancelFactor(t * m, price, bps);
    calc {
      price * bps;
    < CASHBACK_K * (m + 1);
    <= { MulMonotone(CASHBACK_K, (t + 1) * bps, m + 1); }
      ((t + 1) * bps) * (m + 1);
    == ((t + 1) * (m + 1)) * bps;
    }
    CancelFactorStrict(price, (t + 1) * (m + 1), bps);
  }

  /** A schedule exists exactly for these inputs. */
  lemma {:induction false} SchedulableIff(price: int, bps: int)
    ensures Schedulable(price, bps) <==>
      0 < price <= 100_000_000_000_000 && 100 <= bps <= 10000 && price * bps >= 156000
  { }

  /**
   The calculator accepts exactly the schedulable inputs.  On those the balloon
   check never fires, the balloon lies in [M, 2M + T], 15 <= T <= 1560, and the
   schedule repays the price to the unit.
   */
  lemma {:induction false} TermsExact(price: int, bps: int)
    ensures ComputePlanTerms(price, bps).Terms? <==> Schedulable(price, bps)
    ensures ComputePlanTerms(price, bps) != InvalidPlanInput(BalloonBelowRegular)
    ensures ComputePlanTerms(price, bps) == InvalidPlanInput(PriceOutOfRange) <==> !(0 < price <= 100_000_000_000_000)
    ensures ComputePlanTerms(price, bps) == InvalidPlanInput(CommissionOutOfRange) <==>
      0 < price <= 100_000_000_000_000 && !(100 <= bps <= 10000)
    ensures Schedulable(price, bps) ==>
              var terms := ComputePlanTerms(price, bps).terms;
              && ExactSchedule(terms, price)
              && 15 <= terms.totalMonths <= 1560
              && terms.lastMinor <= 2 * terms.monthlyMinor + terms.totalMonths
  {
    if 0 < price <= MAX_PRICE_MINOR && 100 <= bps <= 10000 {
      MonthsBounds(bps);
      var t, m := CASHBACK_K / bps, (price * bps) / CASHBACK_K;
      assert m >= 1 <==> price * bps >= CASHBACK_K;
      if m >= 1 {
        PriceBetweenProducts(price, bps, t, m);
        assert (t - 1) * m == t * m - m;
        assert (t + 1) * (m + 1) == t * m + t + m + 1;
      }
    }
  }

  /**
   What the schedule is, for the literal factor 156000: T is 156000 / bps and M is
   price * bps / 156000, both rounded down, and the balloon is what is left of the price.
   */
  lemma {:induction false} TermsAre(price: int, bps: int)
    requires Schedulable(price, bps)
    ensures ComputePlanTerms(price, bps).Terms?
    ensures var terms := ComputePlanTerms(price, bps).terms; var t, m := terms.totalMonths, terms.monthlyMinor;
      && t * bps <= 156000 < (t + 1) * bps
      && m * 156000 <= price * bps < (m + 1) * 156000
      && (t - 1) * m + terms.lastMinor == price
  {
    TermsExact(price, bps);
    MonthsBounds(bps);
  }

  /** No intermediate of the computation leaves the int64 range. */
  lemma {:induction false} TermsFitInt64(price: int, bps: int)
    requires Schedulable(price, bps)
    ensures 0 <= price * bps <= 9_223_372_036_854_775_807
    ensures var terms := ComputePlanTerms(price, bps).terms;
            && 0 <= (terms.totalMonths - 1) * terms.monthlyMinor <= price
            && 0 < terms.lastMinor <= price
  {
    TermsExact(price, bps);
    MulMonotone(price, MAX_PRICE_MINOR, bps);
    var terms := ComputePlanTerms(price, bps).terms;
    MulMonotone(0, terms.totalMonths - 1, terms.monthlyMinor);
  }

  // ---- the schedule as a running total ----

  /** M in every month but the last, the balloon in the last, nothing outside the schedule. */
  lemma {:induction false} InstallmentIs(terms: PlanTerms, price: int, n: int)
    requires ExactSchedule(terms, price)
    ensures InstallmentAmount(terms, n) == 0 <==> n < 1 || n > terms.totalMonths
    ensures 1 <= n < terms.totalMonths ==> InstallmentAmount(terms, n) == terms.monthlyMinor
    ensures InstallmentAmount(terms, terms.totalMonths) == price - (terms.totalMonths - 1) * terms.monthlyMinor
  { }

  lemma {:induction false} PaidThroughClosedForm(terms: PlanTerms, price: int, k: nat)
    requires ExactSchedule(terms, price) && k <= terms.totalMonths
    ensures PaidThrough(terms, k) == if k == terms.totalMonths then price else k * terms.monthlyMinor
  {
    if k > 0 {
      PaidThroughClosedForm(terms, price, k - 1);
      assert (k - 1) * terms.monthlyMinor + terms.monthlyMinor == k * terms.monthlyMinor;
    }
  }

  /** The running total climbs strictly and reaches the price only with the last installment. */
  lemma {:induction false} PaidThroughBounded(terms: PlanTerms, price: int, k: nat)
    requires ExactSchedule(terms, price) && k <= terms.totalMonths
    ensures 0 <= PaidThrough(terms, k) <= price
    ensures PaidThrough(terms, k) == price <==> k == terms.totalMonths
    ensures k < terms.totalMonths ==> PaidThrough(terms, k) < PaidThrough(terms, k + 1)
  {
    PaidThroughClosedForm(terms, price, k);
    if k < terms.totalMonths {
      PaidThroughClosedForm(terms, price, k + 1);
      MulMonotone(k, terms.totalMonths - 1, terms.monthlyMinor);
    }
    MulMonotone(0, k, terms.monthlyMinor);
  }
}

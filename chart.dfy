/** A model of the compound-interest chart generator: from the compound-interest
    form it builds one chart entry per month, 0 up to the total number of months,
    either in the deposit regime (principal fixed, contributions added) or in the
    withdrawal regime (a running principal that is drawn down and floored at zero).

    Arithmetic is over `real`. Exponentiation (`base ** exponent`, with a
    fractional exponent) is a parameter of type `Power`, so no statement below
    depends on its values. */
module CompoundInterestChart {

  /** The compound-interest form, field by field. */
  datatype FormData = FormData(
    startingBalance: real,
    interestRate: real,            // annual rate, in percent
    compoundFrequency: real,       // compounding periods per year
    duration: real,
    durationMultiplier: real,      // months per unit of duration
    contribution: real,
    contributionMultiplier: real,  // above -1: deposits; -1 or below: withdrawals
    contributionFrequency: real)   // contributions per year

  /** One point of the chart. */
  datatype ChartEntry = ChartEntry(
    month: nat,
    totalPrincipal: real,
    totalContributions: real,
    totalInterest: real,
    totalAbsInterest: real)

  /** `base ** exponent`, supplied by the caller. */
  type Power = (real, real) -> real

  /** The series is defined only when the periodic rate `r / n` is a real
      number other than zero: a zero rate or a zero compounding frequency
      would divide by zero. */
  predicate Computable(f: FormData)
  {
    f.interestRate != 0.0 && f.compoundFrequency != 0.0
  }

  /** `tm`: the duration in months; it may be fractional or negative. */
  function TotalMonths(f: FormData): real
  {
    f.duration * f.durationMultiplier
  }

  /** The regime: a contribution multiplier of 0 still counts as depositing. */
  predicate IsDepositing(f: FormData)
  {
    f.contributionMultiplier > -1.0
  }

  /** `pmt`: the signed contribution spread evenly over the months. */
  function MonthlyContribution(f: FormData): real
  {
    (f.contributionFrequency / 12.0) * (f.contributionMultiplier * f.contribution)
  }

  /** `PMT`: the signed contribution per compounding period. */
  function PeriodicContribution(f: FormData): real
    requires f.compoundFrequency != 0.0
  {
    f.contributionMultiplier * f.contribution * (f.contributionFrequency / f.compoundFrequency)
  }

  /** `r / n`: the interest rate per compounding period, as a fraction. */
  function PeriodicRate(f: FormData): (rate: real)
    requires Computable(f)
    ensures rate != 0.0
  {
    var r := f.interestRate / 100.0;
    assert r != 0.0;
    r / f.compoundFrequency
  }

  /** `(1 + r/n) ** (n * (i/12))`: the growth factor after month `i`. */
  function Growth(f: FormData, pow: Power, i: nat): real
    requires Computable(f)
  {
    pow(1.0 + PeriodicRate(f), f.compoundFrequency * (i as real / 12.0))
  }

  /** `CI_i + FV_i`: the compounded starting balance plus the future value of
      the contribution annuity after month `i`. */
  function ProjectedTotal(f: FormData, pow: Power, i: nat): real
    requires Computable(f)
  {
    var compounded := f.startingBalance * Growth(f, pow, i);
    var annuity := PeriodicContribution(f) * ((Growth(f, pow, i) - 1.0) / PeriodicRate(f));
    compounded + annuity
  }

  /** `interest`: the projected total less the starting balance and the
      contributions of the first `i` months. */
  function Interest(f: FormData, pow: Power, i: nat): real
    requires Computable(f)
  {
    ProjectedTotal(f, pow, i) - (f.startingBalance + i as real * MonthlyContribution(f))
  }

  /** The running principal of the withdrawal regime after month `i`, in
      closed form: month 0 applies no contribution, every later month one. */
  function RunningPrincipal(f: FormData, i: nat): real
  {
    f.startingBalance + i as real * MonthlyContribution(f)
  }

  /** `x` floored at zero. */
  function Max0(x: real): real
  {
    if x > 0.0 then x else 0.0
  }

  /** The number of entries: one per integer month `i` with `0 <= i <= tm`. */
  function EntryCount(f: FormData): (k: nat)
    ensures k > 0 ==> (k - 1) as real <= TotalMonths(f)
    ensures TotalMonths(f) < k as real
  {
    if TotalMonths(f) < 0.0 then 0 else TotalMonths(f).Floor + 1
  }

  /** The entry for month `i` when the running principal, after this month's
      contribution, is `p`. In the deposit regime `p` plays no part. */
  function MonthEntry(f: FormData, pow: Power, i: nat, p: real): ChartEntry
    requires Computable(f)
  {
    var pmt := MonthlyContribution(f);
    var interest := Interest(f, pow, i);
    var additions := i as real * pmt;
    if IsDepositing(f) then
      ChartEntry(i, f.startingBalance, additions, interest, interest)
    else
      var offsetPrincipal := if p > 0.0 then p else 0.0;
      var remainder := if p + pmt > f.startingBalance then 0.0 else p;
      ChartEntry(i, if p >= 0.0 then p else 0.0, additions,
                 if i > 0 then interest + remainder - offsetPrincipal else 0.0, interest)
  }

  /** The entry for month `i`, with the running principal in closed form. */
  function ExpectedEntry(f: FormData, pow: Power, i: nat): ChartEntry
    requires Computable(f)
  {
    MonthEntry(f, pow, i, RunningPrincipal(f, i))
  }

  /** The entries for months 0 up to `n - 1`, in order. */
  function SeriesUpTo(f: FormData, pow: Power, n: nat): (s: seq<ChartEntry>)
    requires Computable(f)
    ensures |s| == n
  {
    if n == 0 then [] else SeriesUpTo(f, pow, n - 1) + [ExpectedEntry(f, pow, n - 1)]
  }

  /** Entry `k` of the first `n` months is the entry for month `k`. */
  lemma {:induction false} SeriesAt(f: FormData, pow: Power, n: nat, k: nat)
    requires Computable(f) && k < n
    ensures SeriesUpTo(f, pow, n)[k] == ExpectedEntry(f, pow, k)
  {
    if k < n - 1 {
      SeriesAt(f, pow, n - 1, k);
    }
  }

  /** The whole chart. */
  function ChartData(f: FormData, pow: Power): seq<ChartEntry>
    requires Computable(f)
  {
    SeriesUpTo(f, pow, EntryCount(f))
  }

  /** Entry `k` of the chart is the entry for month `k`. */
  lemma ChartAt(f: FormData, pow: Power, k: nat)
    requires Computable(f) && k < EntryCount(f)
    ensures |ChartData(f, pow)| == EntryCount(f)
    ensures ChartData(f, pow)[k] == ExpectedEntry(f, pow, k)
  {
    SeriesAt(f, pow, EntryCount(f), k);
  }

  /** The generator: a loop over the months that keeps the running principal
      `p` (drawn on in the withdrawal regime only, and not in month 0) and
      appends one entry per month. */
  method CreateChartData(f: FormData, pow: Power) returns (chart: seq<ChartEntry>)
    requires Computable(f)
    ensures chart == ChartData(f, pow)
    ensures |chart| == EntryCount(f)
    ensures forall k :: 0 <= k < |chart| ==> chart[k] == ExpectedEntry(f, pow, k)
  {
    var tm := f.duration * f.durationMultiplier;
    var depositing := f.contributionMultiplier > -1.0;
    var p := f.startingBalance;
    chart := [];
    var i: nat := 0;
    while i as real <= tm
      invariant i <= EntryCount(f)
      invariant chart == SeriesUpTo(f, pow, i)
      invariant p == if depositing || i == 0 then f.startingBalance else RunningPrincipal(f, i - 1)
      decreases EntryCount(f) - i
    {
      var pmt := MonthlyContribution(f);
      if !depositing {
        if i > 0 {
          p := p + pmt;
          RunningPrincipalStep(f, i);
        }
      } else {
        DepositIgnoresPrincipal(f, pow, i, p);
      }
      var entry := MonthEntry(f, pow, i, p);
      SeriesStep(f, pow, i);
      chart := chart + [entry];
      i := i + 1;
    }
    assert i == EntryCount(f);
    forall k | 0 <= k < |chart|
      ensures chart[k] == ExpectedEntry(f, pow, k)
    {
      SeriesAt(f, pow, i, k);
    }
  }

  // ---------------------------------------------------------------------------
  // Properties of the chart
  // ---------------------------------------------------------------------------

  /** There is an entry for month `m` exactly when `m` is an integer with
      `0 <= m <= tm`. */
  lemma EntryForMonth(f: FormData, pow: Power, m: int)
    requires Computable(f)
    ensures (exists k :: 0 <= k < |ChartData(f, pow)| && ChartData(f, pow)[k].month == m)
            <==> (0 <= m && m as real <= TotalMonths(f))
  {
    var c := ChartData(f, pow);
    if 0 <= m && m as real <= TotalMonths(f) {
      ChartAt(f, pow, m);
      assert c[m].month == m;
    }
    forall k | 0 <= k < |c| && c[k].month == m
      ensures 0 <= m && m as real <= TotalMonths(f)
    {
      ChartAt(f, pow, k);
    }
  }

  /** Entry `k` is the entry for month `k`, so the months ascend. */
  lemma ChartMonths(f: FormData, pow: Power)
    requires Computable(f)
    ensures |ChartData(f, pow)| == EntryCount(f)
    ensures forall k :: 0 <= k < |ChartData(f, pow)| ==> ChartData(f, pow)[k].month == k
    ensures forall j, k :: 0 <= j < k < |ChartData(f, pow)| ==>
      ChartData(f, pow)[j].month < ChartData(f, pow)[k].month
  {
    var c := ChartData(f, pow);
    forall k | 0 <= k < |c|
      ensures c[k].month == k
    {
      ChartAt(f, pow, k);
    }
  }

  /** In both regimes every entry carries the contributions of its first `k`
      months and the unadjusted interest `CI_k + FV_k - (P + k * pmt)`. */
  lemma ChartContributionsAndInterest(f: FormData, pow: Power)
    requires Computable(f)
    ensures forall k :: 0 <= k < |ChartData(f, pow)| ==>
      ChartData(f, pow)[k].totalContributions == k as real * MonthlyContribution(f) &&
      ChartData(f, pow)[k].totalAbsInterest ==
        ProjectedTotal(f, pow, k) - (f.startingBalance + k as real * MonthlyContribution(f))
  {
    var c := ChartData(f, pow);
    forall k | 0 <= k < |c|
      ensures c[k].totalContributions == k as real * MonthlyContribution(f)
      ensures c[k].totalAbsInterest ==
        ProjectedTotal(f, pow, k) - (f.startingBalance + k as real * MonthlyContribution(f))
    {
      ChartAt(f, pow, k);
    }
  }

  /** Deposit regime: the principal stays the starting balance, the reported
      interest is the interest itself, and principal, contributions and
      interest add up to the projected total. */
  lemma DepositEntries(f: FormData, pow: Power)
    requires Computable(f) && IsDepositing(f)
    ensures forall k :: 0 <= k < |ChartData(f, pow)| ==>
      ChartData(f, pow)[k].totalPrincipal == f.startingBalance &&
      ChartData(f, pow)[k].totalInterest == ChartData(f, pow)[k].totalAbsInterest &&
      ChartData(f, pow)[k].totalPrincipal + ChartData(f, pow)[k].totalContributions
        + ChartData(f, pow)[k].totalInterest == ProjectedTotal(f, pow, k)
  {
    var c := ChartData(f, pow);
    forall k | 0 <= k < |c|
      ensures c[k].totalPrincipal == f.startingBalance
      ensures c[k].totalInterest == c[k].totalAbsInterest
      ensures c[k].totalPrincipal + c[k].totalContributions + c[k].totalInterest
        == ProjectedTotal(f, pow, k)
    {
      ChartAt(f, pow, k);
    }
  }

  /** Withdrawal regime: the reported principal is the running principal
      floored at zero, it is never negative, and month 0 reports no interest. */
  lemma WithdrawalPrincipal(f: FormData, pow: Power)
    requires Computable(f) && !IsDepositing(f)
    ensures forall k :: 0 <= k < |ChartData(f, pow)| ==>
      ChartData(f, pow)[k].totalPrincipal == Max0(RunningPrincipal(f, k)) &&
      ChartData(f, pow)[k].totalPrincipal >= 0.0
    ensures |ChartData(f, pow)| > 0 ==> ChartData(f, pow)[0].totalInterest == 0.0
  {
    var c := ChartData(f, pow);
    forall k | 0 <= k < |c|
      ensures c[k].totalPrincipal == Max0(RunningPrincipal(f, k)) && c[k].totalPrincipal >= 0.0
      ensures k == 0 ==> c[k].totalInterest == 0.0
    {
      ChartAt(f, pow, k);
    }
  }

  /** Withdrawal regime, months after the first: the interest is adjusted by
      the remainder and the offset principal of the running principal. */
  lemma WithdrawalInterest(f: FormData, pow: Power)
    requires Computable(f) && !IsDepositing(f)
    ensures forall k :: 0 < k < |ChartData(f, pow)| ==>
      var p := RunningPrincipal(f, k);
      var remainder := if p + MonthlyContribution(f) > f.startingBalance then 0.0 else p;
      ChartData(f, pow)[k].totalInterest ==
        ChartData(f, pow)[k].totalAbsInterest + remainder - Max0(p)
  {
    var c := ChartData(f, pow);
    forall k | 0 < k < |c|
      ensures var p := RunningPrincipal(f, k);
        c[k].totalInterest == c[k].totalAbsInterest
          + (if p + MonthlyContribution(f) > f.startingBalance then 0.0 else p) - Max0(p)
    {
      ChartAt(f, pow, k);
    }
  }

  /** Withdrawal regime with a non-positive monthly contribution: after the
      first month the reported principal plus the reported interest is the
      projected total, so a depleted principal is absorbed by the interest. */
  lemma WithdrawalTotal(f: FormData, pow: Power)
    requires Computable(f) && !IsDepositing(f) && MonthlyContribution(f) <= 0.0
    ensures forall k :: 0 < k < |ChartData(f, pow)| ==>
      ChartData(f, pow)[k].totalPrincipal + ChartData(f, pow)[k].totalInterest
        == ProjectedTotal(f, pow, k)
  {
    var c := ChartData(f, pow);
    forall k | 0 < k < |c|
      ensures c[k].totalPrincipal + c[k].totalInterest == ProjectedTotal(f, pow, k)
    {
      ChartAt(f, pow, k);
      WithdrawalKeepsRemainder(f, k);
    }
  }

  /** With a non-positive monthly contribution the running principal plus one
      more contribution never exceeds the starting balance, so the remainder
      is the running principal itself. */
  lemma WithdrawalKeepsRemainder(f: FormData, k: nat)
    requires MonthlyContribution(f) <= 0.0
    ensures RunningPrincipal(f, k) + MonthlyContribution(f) <= f.startingBalance
  {
    var pmt := MonthlyContribution(f);
    assert RunningPrincipal(f, k) + pmt == f.startingBalance + (k + 1) as real * pmt;
    NonPositiveMultiple(k + 1, pmt);
  }

  /** A withdrawal with a non-negative amount and frequency draws the monthly
      contribution down or leaves it at zero. */
  lemma WithdrawalIsNonPositive(f: FormData)
    requires !IsDepositing(f) && f.contribution >= 0.0 && f.contributionFrequency >= 0.0
    ensures MonthlyContribution(f) <= 0.0
  {
    var amount := f.contributionMultiplier * f.contribution;
    assert amount <= 0.0 by {
      assert -f.contributionMultiplier * f.contribution >= f.contribution;
    }
    assert f.contributionFrequency / 12.0 >= 0.0;
    NonNegativeTimesNonPositive(f.contributionFrequency / 12.0, amount);
  }

  /** Withdrawal regime with a non-negative amount and frequency: the reported
      principal never increases from one month to the next. */
  lemma WithdrawalPrincipalNonIncreasing(f: FormData, pow: Power)
    requires Computable(f) && !IsDepositing(f)
    requires f.contribution >= 0.0 && f.contributionFrequency >= 0.0
    ensures forall k :: 0 < k < |ChartData(f, pow)| ==>
      ChartData(f, pow)[k].totalPrincipal <= ChartData(f, pow)[k - 1].totalPrincipal
  {
    var c := ChartData(f, pow);
    WithdrawalIsNonPositive(f);
    forall k | 0 < k < |c|
      ensures c[k].totalPrincipal <= c[k - 1].totalPrincipal
    {
      ChartAt(f, pow, k);
      ChartAt(f, pow, k - 1);
      RunningPrincipalStep(f, k);
    }
  }

  /** Withdrawal regime with a non-negative amount and frequency: once the
      reported principal is depleted it stays at zero. */
  lemma PrincipalStaysDepleted(f: FormData, pow: Power, j: nat, k: nat)
    requires Computable(f) && !IsDepositing(f)
    requires f.contribution >= 0.0 && f.contributionFrequency >= 0.0
    requires j <= k < |ChartData(f, pow)| && ChartData(f, pow)[j].totalPrincipal == 0.0
    ensures ChartData(f, pow)[k].totalPrincipal == 0.0
  {
    var principals := seq(|ChartData(f, pow)|, i requires 0 <= i < |ChartData(f, pow)| =>
                          ChartData(f, pow)[i].totalPrincipal);
    WithdrawalPrincipal(f, pow);
    WithdrawalPrincipalNonIncreasing(f, pow);
    DepletedStaysZero(principals, j, k);
  }

  /** Deposit regime with a non-negative multiplier, amount and frequency: the
      cumulative contributions never decrease from one month to the next. */
  lemma DepositContributionsNonDecreasing(f: FormData, pow: Power)
    requires Computable(f) && f.contributionMultiplier >= 0.0
    requires f.contribution >= 0.0 && f.contributionFrequency >= 0.0
    ensures forall k :: 0 < k < |ChartData(f, pow)| ==>
      ChartData(f, pow)[k - 1].totalContributions <= ChartData(f, pow)[k].totalContributions
  {
    var c := ChartData(f, pow);
    var pmt := MonthlyContribution(f);
    assert f.contributionMultiplier * f.contribution >= 0.0;
    assert pmt >= 0.0;
    forall k | 0 < k < |c|
      ensures c[k - 1].totalContributions <= c[k].totalContributions
    {
      ChartAt(f, pow, k);
      ChartAt(f, pow, k - 1);
      assert k as real * pmt == (k - 1) as real * pmt + pmt;
    }
  }

  // ---------------------------------------------------------------------------
  // Helpers
  // ---------------------------------------------------------------------------

  /** A non-negative, non-increasing sequence that reaches zero stays there. */
  lemma {:induction false} DepletedStaysZero(s: seq<real>, j: nat, k: nat)
    requires forall i :: 0 <= i < |s| ==> s[i] >= 0.0
    requires forall i :: 0 < i < |s| ==> s[i] <= s[i - 1]
    requires j <= k < |s| && s[j] == 0.0
    ensures s[k] == 0.0
    decreases k - j
  {
    if j < k {
      assert s[j + 1] <= s[j];
      DepletedStaysZero(s, j + 1, k);
    }
  }

  /** Appending the entry for month `n` extends the series by one month. */
  lemma SeriesStep(f: FormData, pow: Power, n: nat)
    requires Computable(f)
    ensures SeriesUpTo(f, pow, n + 1) == SeriesUpTo(f, pow, n) + [ExpectedEntry(f, pow, n)]
  {
  }

  /** In the deposit regime the running principal does not enter the entry. */
  lemma DepositIgnoresPrincipal(f: FormData, pow: Power, i: nat, p: real)
    requires Computable(f) && IsDepositing(f)
    ensures MonthEntry(f, pow, i, p) == ExpectedEntry(f, pow, i)
  {
  }

  /** Every month after the first adds one monthly contribution. */
  lemma RunningPrincipalStep(f: FormData, i: nat)
    requires i > 0
    ensures RunningPrincipal(f, i) == RunningPrincipal(f, i - 1) + MonthlyContribution(f)
  {
  }

  /** A non-negative factor times a non-positive one is non-positive. */
  lemma NonNegativeTimesNonPositive(a: real, b: real)
    requires a >= 0.0 && b <= 0.0
    ensures a * b <= 0.0
  {
  }

  /** A natural multiple of a non-positive real is non-positive. */
  lemma NonPositiveMultiple(m: nat, x: real)
    requires x <= 0.0
    ensures m as real * x <= 0.0
  {
  }
}

# Compound-interest chart data

This project models the series generator behind the compound-interest calculator's chart
(`createCounpoundInterestChartData`). The generator takes the compound-interest form and builds one
chart entry per month, from month 0 up to the duration in months. Each entry carries the month, the
principal, the cumulative contributions, the interest, and the unadjusted ("absolute") interest
shown in the table.

The generator works in one of two regimes:

- **Deposit.** This applies when the contribution multiplier is above -1, and 0 counts as
  depositing. The principal stays at the starting balance, and the reported interest is the plain
  interest.
- **Withdrawal.** The generator keeps a running principal `p`. Every month except the first adds
  the signed monthly contribution to `p`. The reported principal is `p` floored at zero. From
  month 1 on, the reported interest is adjusted by a "remainder" and an "offset principal"
  computed from `p`.

Everything is in one module, `CompoundInterestChart` (chart.dfy):

- `FormData` and `ChartEntry` are the form and the entry record.
- `CreateChartData` is the generator. It is a loop that keeps the running principal `p`
  step by step and appends one entry per month.
- `ChartData` is its specification. It builds the same series with the running principal in
  closed form: `RunningPrincipal(f, i) = startingBalance + i * pmt`.
- The property lemmas are stated about `ChartData`.
- `CreateChartData` ensures `chart == ChartData(f, pow)`, so every property holds of the
  generator's output too.

Arithmetic is over `real`. The exponentiation `**` is the parameter `pow: (real, real) -> real`,
supplied by the caller. No contract depends on its values.

## Model

| member | source | states |
|---|---|---|
| `CompoundInterestChart.Computable` | lib/createCounpoundInterestChartData.ts:50-63 | definition: the rate and the compounding frequency are non-zero, so the divisions by `compoundFrequency` (line 51) and by `r / n` (line 63) are defined; its consequence is fixed by `PeriodicRate`. |
| `CompoundInterestChart.TotalMonths` | lib/createCounpoundInterestChartData.ts:44 | definition of `tm = duration * durationMultiplier`; the number of months it yields is fixed by `EntryCount` and `EntryForMonth`. |
| `CompoundInterestChart.IsDepositing` | lib/createCounpoundInterestChartData.ts:46 | definition of `depositting = contributionMultiplier > -1`; what each regime reports is fixed by `DepositEntries`, `WithdrawalPrincipal` and `WithdrawalInterest`. |
| `CompoundInterestChart.MonthlyContribution` | lib/createCounpoundInterestChartData.ts:61 | definition of `pmt`; its sign under non-negative inputs is fixed by `WithdrawalIsNonPositive`, and its role in the contributions by `ChartContributionsAndInterest`. |
| `CompoundInterestChart.PeriodicContribution` | lib/createCounpoundInterestChartData.ts:50-51 | definition of `PMT`, the contribution per compounding period; it enters the chart only through `ProjectedTotal`. |
| `CompoundInterestChart.Growth` | lib/createCounpoundInterestChartData.ts:62-63 | definition of `(1 + r/n) ** (n * (i/12))` with `**` as the parameter `pow`; its use is fixed by `ProjectedTotal`. |
| `CompoundInterestChart.ProjectedTotal` | lib/createCounpoundInterestChartData.ts:62-64 | definition of `T_i = CI_i + FV_i`; `DepositEntries` and `WithdrawalTotal` fix how the reported fields add up to it. |
| `CompoundInterestChart.Interest` | lib/createCounpoundInterestChartData.ts:66-67 | definition of `interest = T_i - (P + i * pmt)`; its place in the entry is fixed by `ChartContributionsAndInterest` (the absolute interest), `DepositEntries` and `WithdrawalInterest`. |
| `CompoundInterestChart.RunningPrincipal` | lib/createCounpoundInterestChartData.ts:57-85 | definition of the running principal after month `i` in closed form; `CreateChartData`'s invariant proves the loop's `p` equals it, and `RunningPrincipalStep` gives its recurrence. |
| `CompoundInterestChart.MonthEntry` | lib/createCounpoundInterestChartData.ts:60-100 | definition of one iteration's entry from the month and the current `p`, both branches; its fields are fixed by `DepositEntries`, `DepositIgnoresPrincipal`, `WithdrawalPrincipal`, `WithdrawalInterest` and `ChartContributionsAndInterest`. |
| `CompoundInterestChart.ExpectedEntry` | lib/createCounpoundInterestChartData.ts:59-100 | definition: the month-`i` entry with the running principal in closed form; its fields are fixed by the same lemmas, and `CreateChartData` proves the loop produces it for every month. |
| `CompoundInterestChart.ChartData` | lib/createCounpoundInterestChartData.ts:59-105 | definition: the entries for months `0 .. EntryCount - 1` in order; its length and contents are fixed by `ChartAt`, `ChartMonths` and `EntryForMonth`, and `CreateChartData` returns exactly it. |
| `CompoundInterestChart.CreateChartData` | lib/createCounpoundInterestChartData.ts:44-105 | The loop, with its running principal `p`, returns exactly `ChartData`. It has `EntryCount` entries, and entry `k` is the closed-form entry for month `k`. The invariant that makes this hold: before month `i`, for `i >= 1` in the withdrawal regime, `p` equals the starting balance plus `i - 1` monthly contributions; at `i = 0` or in the deposit regime it is the starting balance. |
| `CompoundInterestChart.EntryCount` | lib/createCounpoundInterestChartData.ts:44-59 | The loop `for (i = 0; i <= tm; i++)` over a real `tm` runs exactly `k` times. `k` is the least natural number with `tm < k`, so it is 0 when `tm < 0`, and otherwise `k - 1 <= tm`. |
| `CompoundInterestChart.PeriodicRate` | lib/createCounpoundInterestChartData.ts:53-63 | If the rate and the compounding frequency are non-zero, then `r / n` is non-zero, so the annuity's division by it is defined. |
| `CompoundInterestChart.SeriesUpTo` | lib/createCounpoundInterestChartData.ts:59-102 | Pushing one entry per month for `n` months gives a series of exactly `n` entries. |
| `CompoundInterestChart.SeriesAt` | lib/createCounpoundInterestChartData.ts:75-102 | Entry `k` of the pushed series is the entry for month `k`, for every `k < n`. |
| `CompoundInterestChart.ChartAt` | lib/createCounpoundInterestChartData.ts:59-102 | The chart has `EntryCount` entries, and its entry `k` is the entry for month `k`. |
| `CompoundInterestChart.EntryForMonth` | lib/createCounpoundInterestChartData.ts:44-75 | The chart has an entry for month `m` if and only if `m` is an integer with `0 <= m <= tm`. Both directions are proved. |
| `CompoundInterestChart.ChartMonths` | lib/createCounpoundInterestChartData.ts:59-75 | The chart has `EntryCount` entries. Entry `k` has `month == k`, so the months strictly ascend. |
| `CompoundInterestChart.ChartContributionsAndInterest` | lib/createCounpoundInterestChartData.ts:61-100 | In both regimes, entry `k` has `totalContributions == k * pmt` and `totalAbsInterest == CI_k + FV_k - (startingBalance + k * pmt)`. |
| `CompoundInterestChart.DepositEntries` | lib/createCounpoundInterestChartData.ts:46-80 | In the deposit regime, every entry has `totalPrincipal == startingBalance` and `totalInterest == totalAbsInterest`. Also, principal plus contributions plus interest equals the projected total `CI_k + FV_k`. |
| `CompoundInterestChart.DepositIgnoresPrincipal` | lib/createCounpoundInterestChartData.ts:77-80 | In the deposit regime, the entry does not depend on the running principal. |
| `CompoundInterestChart.RunningPrincipalStep` | lib/createCounpoundInterestChartData.ts:83-85 | From month 1 on, each month adds exactly one monthly contribution `pmt` to the closed-form running principal. |
| `CompoundInterestChart.WithdrawalPrincipal` | lib/createCounpoundInterestChartData.ts:83-96 | In the withdrawal regime, entry `k` reports `max(0, startingBalance + k * pmt)`, so no reported principal is negative. The month-0 entry reports zero interest. |
| `CompoundInterestChart.WithdrawalInterest` | lib/createCounpoundInterestChartData.ts:87-96 | In the withdrawal regime, for `k > 0`: `totalInterest == totalAbsInterest + remainder - max(0, p)`. Here `p` is the running principal, and `remainder` is 0 when `p + pmt > startingBalance` and `p` otherwise. |
| `CompoundInterestChart.WithdrawalKeepsRemainder` | lib/createCounpoundInterestChartData.ts:84-89 | If the monthly contribution is not positive, then `p + pmt` never exceeds the starting balance, so the remainder is `p` itself. |
| `CompoundInterestChart.WithdrawalTotal` | lib/createCounpoundInterestChartData.ts:62-96 | In the withdrawal regime with a non-positive `pmt`, for `k > 0`: reported principal plus reported interest equals `CI_k + FV_k`. The depleted part of the principal is absorbed by the interest, not shown as negative principal. |
| `CompoundInterestChart.WithdrawalIsNonPositive` | lib/createCounpoundInterestChartData.ts:46-61 | In the withdrawal regime, a non-negative contribution and a non-negative frequency give `pmt <= 0`. |
| `CompoundInterestChart.WithdrawalPrincipalNonIncreasing` | lib/createCounpoundInterestChartData.ts:83-92 | In the withdrawal regime, with a non-negative contribution and frequency, the reported principal never increases from one month to the next. |
| `CompoundInterestChart.PrincipalStaysDepleted` | lib/createCounpoundInterestChartData.ts:83-92 | Under the same conditions, once the reported principal is 0 at month `j`, it is 0 at every later month. |
| `CompoundInterestChart.DepositContributionsNonDecreasing` | lib/createCounpoundInterestChartData.ts:61-73 | With a non-negative multiplier, contribution and frequency, the cumulative contributions never decrease from one month to the next. |

## Left out

- Floating point: the model computes over exact reals. It does not model IEEE rounding, `NaN` or
  `Infinity`. It therefore claims no numeric parity and no golden values. The loop bound
  `i <= tm` is also read over exact reals.
- Exponentiation: `**` with a fractional exponent is the caller-supplied `pow`. The values of
  `CI_i` and `FV_i` are stated only as expressions in `pow`.
- A zero interest rate or a zero compounding frequency: the source divides by zero there (`r / n`
  and `contributionFrequency / compoundFrequency`) and produces `NaN` or `Infinity`. Every member
  that computes interest or the chart requires `Computable` (both non-zero) instead of modelling
  that outcome. This excludes the form's default state, whose interest rate is 0. In that state
  the source still gives well-defined `month` and `totalContributions` fields, and
  `totalPrincipal` in both regimes (it never reads the interest); only the two interest fields
  become `NaN`. The structural lemmas (`EntryForMonth`, `ChartMonths`, the contribution half of
  `ChartContributionsAndInterest`, the principal part of `WithdrawalPrincipal`, and both
  monotonicity lemmas) are therefore not claimed for that state.
- The `Promise` wrapper: the generator resolves its promise with the array at once, so the model
  returns the sequence directly.
- The type `ICompoundInterestFormData` is not part of this model. `FormData` takes its eight
  fields from the destructuring in the generator; every field is a real number.
- The regime rule: a reader might expect only a positive multiplier (such as the form's default
  `1`) to deposit. The code's rule is `contributionMultiplier > -1`, which makes 0 (and any value
  above -1) a deposit. The model follows the code.
- Field by field: the source builds each entry as an empty object and then fills its fields, and
  computes `CI_i`, `FV_i` and `interest` inline in the loop. The model builds the whole record
  for the month in one step (`MonthEntry`, from `ProjectedTotal` and `Interest`). The running
  principal stays a mutable local of the loop.
- The calculator pages, the import modal, the form controls and the route handler for
  annualized-return calculations are not part of this model. They are UI rendering, or HTTP,
  session and database plumbing, with nothing to model beyond it.

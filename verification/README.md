# Trust ledger and PNG payroll core, modelled in Dafny

This project models the two parts of the Sasingian Lawyers practice-management backend that carry real rules. It also models the thin route logic around them.

- **The PNG payroll calculator** (`backend/utils/pngPayroll.js`). It annualises one period's earnings over 26 or 12 pay periods and applies the 2026 Salary or Wages Tax (SWT) schedule: a K20,000 tax-free threshold, then four marginal brackets with a precomputed cumulative column. It spreads the annual tax back over the periods and computes employee (6%) and employer (8.4%) superannuation, net pay and two percentage strings. The annual tax, the tax withheld, both contributions and net pay are each rounded to the cent with `Math.round(x * 100) / 100`; total earnings, annual income and total deductions are not rounded.
- **The trust ledger** (the deposit and withdrawal handlers of `backend/routes/matters.js`). Every deposit to or withdrawal from a matter's trust account appends one entry that records the running balance. A matter's current balance is the balance of its most recently written entry, or 0 when it has none. A withdrawal larger than that balance is refused. The dashboard's trust total adds up the latest balance of every matter.
- **The route logic around them**:
  - matter creation, with its duplicate case-number check;
  - the matter update, with its column whitelist;
  - the payroll preview route: input acceptance, defaults, breakdown rows and employer cost;
  - the payroll status update rule;
  - the own-record-or-privileged-role check on a staff member's payroll history.

Modules, one per component:

- `wrappers.dfy`, module `Wrappers`: `Option` and `Result`.
- `api.dfy`, module `Api`: request scalars, JavaScript truthiness, the null default for optional fields, the acting user, error replies, the role gate, and the validation checks (`notEmpty`, `isUUID`).
- `money.dfy`, module `Money`: exact amounts and `Math.round(x * 100) / 100`.
- `decimal_text.dfy`, module `DecimalText`: `toFixed(2)` and a reader for its text.
- `tax_table.dfy`, module `TaxTable`: the bracket table, the bracket search, an independent marginal-tax definition, and the PNG constants.
- `pay_calculator.dfy`, module `PayCalculator`: `calculate`.
- `trust_ledger.dfy`, module `TrustLedger`: the ledger, both trust handlers, the ledger invariant, and the dashboard total.
- `matters.dfy`, module `Matters`: creating and updating matters.
- `payroll_routes.dfy`, module `PayrollRoutes`: the preview route, the status update, and the staff access rule.

Money is exact: amounts are `real`, and `Money.Round2(x)` is `⌊100x + ½⌋ / 100`. This is `Math.round(x * 100) / 100` on exact values, so halves go toward +∞ for negative amounts too.

The ledger is one sequence of entries in creation order, like the `trust_accounts` table. A matter's own history is its projection. Both handlers are pure functions that return either an error reply or the new ledger together with the entry written.

Database effects become values:
- a stored matter or payroll record is a map from column name to value;
- a table is a map from id to row;
- the id a new matter receives is a parameter;
- so is the `NOW()` timestamp of an update.

Two behaviours of the code are worth naming, and the model follows the code in both:
- **Rounding of halves.** `Math.round` takes halves toward +∞, not away from zero as currency rounding usually does. The two differ only on negative half-cents. A negative net pay can reach one. So can the contributions: the preview route never validates `allowances` or `overtimePay`, so total earnings can be negative. For example, gross pay 0 with allowances −0.25 fortnightly gives an employee contribution of −0.01, where rounding away from zero would give −0.02.
- **Trust routes on a missing matter.** The trust handlers never look the matter up. The balance read finds no entries, so the current balance is 0. The model does the same: a deposit to an unknown id is written, and a withdrawal is refused for insufficient funds. Whether the store itself rejects such an insert is not visible in these handlers; any store error would end in their catch-all 500 reply, which this model leaves out.

## Model

| member | source | states |
|---|---|---|
| `Money.Round2` | backend/utils/pngPayroll.js:51-55 | The result is whole cents, in the half-open window (x − 0.005, x + 0.005]: the nearest cent, with a half rounded up |
| `Money.Round2Unique` | backend/utils/pngPayroll.js:51-55 | Any whole-cent value in that window is `Round2(x)`, so the window pins the rounding down exactly |
| `Money.Round2OfCents` | backend/utils/pngPayroll.js:55 | Rounding an amount that is already whole cents leaves it unchanged |
| `Money.Round2Monotonic` | backend/utils/pngPayroll.js:51-55 | Rounding to the cent preserves order |
| `Money.CentsAdd` | backend/utils/pngPayroll.js:54 | A sum of whole-cent amounts is whole cents |
| `DecimalText.NatText` | backend/utils/pngPayroll.js:71 | The decimal digits of a natural number: at least one digit, no leading zero, and reading them back gives the number |
| `DecimalText.ParseToFixed2` | backend/utils/pngPayroll.js:71 | The text `toFixed(2)` writes reads back as the signed number of hundredths, the magnitude rounded half-up |
| `DecimalText.ParsePercentText` | backend/utils/pngPayroll.js:70-75 | A percentage string reads back as the rounded percentage in hundredths |
| `DecimalText.PercentTextZero` | backend/utils/pngPayroll.js:72 | Zero prints as "0.00%" |
| `TaxTable.Lookup` | backend/utils/pngPayroll.js:34-41 | The bracket loop finds nothing exactly when no bracket from the starting index has a limit at or above the taxable amount |
| `TaxTable.AnnualSwt` | backend/utils/pngPayroll.js:31-42 | Annual tax is 0 at or below the tax-free threshold, and always whole cents |
| `TaxTable.LookupFirstFit` | backend/utils/pngPayroll.js:34-39 | The bracket used is the first one whose limit is at or above the taxable amount, and the tax is `cumulative + (taxable − previous limit) × rate`, taking the previous limit of the first bracket as 0 |
| `TaxTable.AnnualSwtIsMarginal` | backend/utils/pngPayroll.js:32-41 | Above the threshold of a consistent table, some bracket always fits, so the trailing `return 0` is unreachable. The annual tax equals the independent marginal-tax definition (each band taxed at its own rate) rounded to the cent |
| `TaxTable.EdgeContinuity` | backend/utils/pngPayroll.js:20-25 | In a consistent table, at each finite bracket edge the bracket ending there and the next bracket give the same tax, so tax has no jump at an edge |
| `TaxTable.WellFormedSuffix` | backend/utils/pngPayroll.js:20-25 | Every suffix of a consistent table is consistent from its own lower edge and its own cumulative value |
| `TaxTable.MarginalTaxMonotonic` | backend/utils/pngPayroll.js:33-41 | The marginal tax of an ascending table is non-negative and never decreases as the taxable amount grows |
| `TaxTable.AnnualSwtMonotonic` | backend/utils/pngPayroll.js:31-42 | Under a consistent schedule, annual tax is non-negative and earning more never lowers it |
| `TaxTable.PngWellFormed` | backend/utils/pngPayroll.js:19-27 | The PNG table is consistent: limits ascend, only the last bracket is unbounded, and 3750 = 12500 × 0.30, 6375 = 3750 + 7500 × 0.35, 11575 = 6375 + 13000 × 0.40 |
| `TaxTable.PngBoundaries` | backend/utils/pngPayroll.js:31-42 | Annual gross 20,000 → 0; 32,500 → 3,750.00; 40,000 → 6,375.00; 52,000 → 11,175.00 |
| `PayCalculator.Periods` | backend/utils/pngPayroll.js:46 | 12 periods exactly when the frequency is "Monthly", 26 for every other frequency |
| `PayCalculator.Annualise` | backend/utils/pngPayroll.js:46-48 | Annual income is 12 × earnings for "Monthly" and 26 × earnings otherwise |
| `PayCalculator.PeriodTax` | backend/utils/pngPayroll.js:51 | The tax withheld per period is whole cents within half a cent of annual tax ÷ periods |
| `PayCalculator.Contribution` | backend/utils/pngPayroll.js:52-53 | A superannuation contribution is whole cents within half a cent of earnings × rate |
| `PayCalculator.ShareText` | backend/utils/pngPayroll.js:70-75 | A percentage string reads back as the rounded share `part ÷ whole × 100`, or as 0 when `whole` is not positive |
| `PayCalculator.Calculate` | backend/utils/pngPayroll.js:45-77 | Inputs are echoed. Total earnings and total deductions are the sums. Each figure comes from its own stage: both contributions are computed independently from total earnings, not from each other |
| `PayCalculator.CalculateAnnualises` | backend/utils/pngPayroll.js:46-51 | Income is annualised over 12 or 26 periods. At or below the tax-free threshold, both the annual tax and the tax withheld are 0 |
| `PayCalculator.CalculateRounding` | backend/utils/pngPayroll.js:49-55 | Annual tax, period tax, both contributions and net pay are whole cents. Period tax and net pay are each within half a cent of the exact value they round |
| `PayCalculator.CalculateZeroEarnings` | backend/utils/pngPayroll.js:70-76 | Whenever total earnings are 0, including negative allowances or overtime cancelling the rest, the tax, both contributions and both percentages are 0 / "0.00%". With no other deductions, net pay is 0 too |
| `PayCalculator.NegativeHalfCent` | backend/utils/pngPayroll.js:52 | An employee contribution on total earnings of −0.25 is −0.01: the half-cent −0.015 goes toward +∞, not away from zero |
| `PayCalculator.AnnualiseMonotonic` | backend/utils/pngPayroll.js:46-48 | Annualising preserves order |
| `PayCalculator.PeriodTaxMonotonic` | backend/utils/pngPayroll.js:51 | A larger non-negative annual tax never gives a smaller tax withheld per period |
| `PayCalculator.SwtMonotonic` | backend/utils/pngPayroll.js:45-51 | Under a consistent schedule at a fixed frequency, the tax withheld is non-negative and never decreases as total earnings grow |
| `PayCalculator.FortnightlyExample` | backend/utils/pngPayroll.js:45-67 | K2,000 fortnightly gives annual income 52,000, annual tax 11,175.00, tax withheld 429.81, contributions 120.00 and 168.00, total deductions 549.81 and net pay 1,450.19 |
| `PayCalculator.FortnightlyExampleShares` | backend/utils/pngPayroll.js:70-75 | In the same example the two percentages read 21.49% and 72.51% |
| `Api.OrNull` | backend/routes/matters.js:128-130 | The null default of an optional field gives NULL exactly when the field is absent or falsy, and otherwise the value itself |
| `Api.FailedFields` | backend/routes/matters.js:114-115 | The validation reply lists exactly the fields whose check failed, and the list is empty exactly when every check passes |
| `TrustLedger.Project` | backend/routes/matters.js:220-223 | A matter's history holds only entries of that ledger that belong to that matter |
| `TrustLedger.CurrentBalanceIsLast` | backend/routes/matters.js:95-102 | The current balance is the balance of the last entry, in creation order, of the matter's own history, or 0 when there is none |
| `TrustLedger.Admit` | backend/routes/matters.js:212-217 | A trust request passes exactly when the role is Admin or Partner and the amount is at least 0.01, the description non-empty and the date ISO-8601. Otherwise the reply is 403 for the role, or 400 listing exactly the fields whose check failed |
| `TrustLedger.DepositTo` | backend/routes/matters.js:211-235 | A deposit is refused exactly when the role or validation fails. Otherwise it appends exactly one Deposit entry whose balance is the matter's current balance plus the amount, and leaves every earlier entry as it was |
| `TrustLedger.WithdrawFrom` | backend/routes/matters.js:237-267 | A withdrawal is refused with 400 and both amounts when the current balance is strictly below the amount; an equal amount is allowed. Otherwise it appends exactly one Withdrawal entry whose balance is the current balance minus the amount |
| `TrustLedger.Next` | backend/routes/matters.js:250-255 | A refused request, including an insufficient-funds withdrawal, leaves the ledger unchanged. An accepted one appends exactly the entry its handler wrote, keeping the old entries as a prefix |
| `TrustLedger.ChainedNonNegative` | backend/routes/matters.js:250-256 | A chained history that starts from a non-negative balance holds no negative balance |
| `TrustLedger.ChainedAppend` | backend/routes/matters.js:224-229 | Appending one valid step to a chained history keeps it chained |
| `TrustLedger.ValidNonNegative` | backend/routes/matters.js:250-256 | In a valid ledger every recorded balance is ≥ 0 |
| `TrustLedger.AppendPreservesValid` | backend/routes/matters.js:224-261 | An entry that is one deposit or withdrawal step from its matter's current balance keeps the ledger valid |
| `TrustLedger.NextPreservesValid` | backend/routes/matters.js:211-267 | Every handler outcome, refused or accepted, keeps the ledger valid |
| `TrustLedger.RunPreservesValid` | backend/routes/matters.js:211-267 | Any sequence of deposit and withdrawal requests keeps the ledger valid: each entry's balance is the previous balance ± its amount, and every balance is ≥ 0 |
| `TrustLedger.RunFromEmptyNonNegative` | backend/routes/matters.js:211-267 | Starting from an empty trust table, no sequence of requests ever records a negative balance |
| `TrustLedger.PostTouchesOnlyItsMatter` | backend/routes/matters.js:224-229 | Writing an entry sets its matter's current balance to the entry's balance and leaves every other matter's balance unchanged |
| `TrustLedger.TotalFromSplit` | backend/routes/matters.js:24-28 | Taking one matter out of the running total gives back that matter's current balance |
| `TrustLedger.TrustTotalIsSumOfBalances` | backend/routes/matters.js:24-28 | The dashboard total equals the sum of the current balances over any duplicate-free list that covers every matter with entries |
| `TrustLedger.TrustTotalAfterPost` | backend/routes/matters.js:24-28 | Writing an entry changes the total by the new balance minus its matter's previous balance |
| `TrustLedger.TrustTotalNonNegative` | backend/routes/matters.js:24-28 | The dashboard total of a valid ledger is ≥ 0 |
| `TrustLedger.DepositWithdrawScenario` | backend/routes/matters.js:211-267 | A deposit of 5,000 to an empty matter gives 5,000. Withdrawing 6,000 is refused with (5,000, 6,000) and changes nothing. Withdrawing 2,000 then leaves 3,000, and withdrawing all 3,000 leaves 0 |
| `Matters.NewRow` | backend/routes/matters.js:124-131 | The inserted row has exactly the eight insert columns. Case number, client id, matter name and matter type carry the request's values. The partner, associate, estimated value and description carry the request's value when it is truthy, and NULL otherwise |
| `Matters.CreateValidation` | backend/routes/matters.js:111-115 | The create request passes exactly when all four checks do; otherwise the reply is 400 listing exactly the fields whose check failed |
| `Matters.Create` | backend/routes/matters.js:109-137 | 403 without Admin or Partner. 400 listing exactly the failed fields when validation fails. 400 "case number exists" when a stored matter already has the case number. Otherwise exactly one new row, `NewRow(req)`, is inserted under the fresh id, with every existing row unchanged |
| `Matters.CreateKeepsCaseNumbersUnique` | backend/routes/matters.js:121-122 | Creating a matter never introduces a second matter with the same case number |
| `Matters.Whitelisted` | backend/routes/matters.js:142-148 | An update entry is kept exactly when it is in the body and its key is one of the eight updatable columns |
| `Matters.WhitelistedKeepsOrder` | backend/routes/matters.js:146-148 | The kept entries are a subsequence of the body, so they keep request-body order |
| `Matters.WhitelistedDistinct` | backend/routes/matters.js:146-148 | The kept entries of an object body have distinct keys |
| `Matters.ApplyUpdates` | backend/routes/matters.js:151-153 | The updated row has exactly the old columns plus the updated ones |
| `Matters.ApplyUpdatesAt` | backend/routes/matters.js:151-153 | Each updated column takes its new value, and every other column keeps its old value |
| `Matters.Update` | backend/routes/matters.js:139-159 | 403 without Admin or Partner. 400 "nothing to update" when no whitelisted key is present. 404 when there is no such matter. Otherwise only that matter's row changes, and every other row is unchanged |
| `Matters.UpdateColumns` | backend/routes/matters.js:142-153 | In the updated row, a whitelisted body key takes the body's value and `updated_at` takes the timestamp. Every other column, including non-whitelisted body keys, keeps its old value |
| `PayrollRoutes.Breakdown` | backend/routes/payroll.js:27-36 | The breakdown has eight rows with the route's labels in order, and exactly Total Earnings and Net Pay are bold |
| `PayrollRoutes.BreakdownSigns` | backend/routes/payroll.js:28-34 | Under a consistent schedule with non-negative inputs, the three earnings rows and their total are never negative, and the SWT, employee super and other-deductions rows are never positive |
| `PayrollRoutes.BreakdownReconciles` | backend/routes/payroll.js:27-36 | The three earnings rows add up to the total row. The three deduction rows carry total deductions negated. Total plus deductions is the net pay row to within half a cent |
| `PayrollRoutes.CostToFirm` | backend/routes/payroll.js:37-41 | The net payment is net pay and the employer contribution is passed through. The cost to the firm is whole cents within half a cent of total earnings plus the employer contribution |
| `PayrollRoutes.CostToFirmExact` | backend/routes/payroll.js:40 | When earnings and the employer contribution are whole cents, the cost to the firm is exactly their sum |
| `PayrollRoutes.CalculateRoute` | backend/routes/payroll.js:12-45 | 403 without Admin or Partner. 400 unless the gross pay is present and ≥ 0 and the frequency is Fortnightly or Monthly, listing exactly the failed fields. Otherwise the calculator runs on the PNG schedule, each absent optional amount becomes 0, and the reply carries the breakdown and the employer cost |
| `PayrollRoutes.PreviewFigures` | backend/routes/payroll.js:19-36 | An accepted preview succeeds, shows minus the tax withheld on the SWT row and the net pay on the Net Pay row, and carries the employer-cost block |
| `PayrollRoutes.PreviewExample` | backend/routes/payroll.js:12-45 | A Partner previewing K2,000 fortnightly sees an SWT row of −429.81, net pay 1,450.19 and a cost to the firm of 2,168.00 |
| `PayrollRoutes.UpdateStatus` | backend/routes/payroll.js:101-124 | 403 for anyone but Admin. 400 for a status other than Pending, Processed or Paid. 404 for an unknown id. Otherwise only that record changes |
| `PayrollRoutes.UpdateStatusColumns` | backend/routes/payroll.js:109-116 | The status always takes the new value. `payment_date` takes the sent date exactly when the status is "Paid" and a truthy date was sent, and is otherwise unchanged. All other columns are unchanged |
| `PayrollRoutes.StaffPayrollAccess` | backend/routes/payroll.js:126-131 | Access succeeds exactly when the requester's id equals `staffId` or the role is Admin or Partner. Otherwise the reply is 403 |

## Left out

- SQL text, the connection pool and the transaction helper. Tables are in-memory sequences and maps.
- The read-then-write race between two concurrent withdrawals. Requests are applied one at a time.
- Authentication (JWT checking, user lookup, inactive accounts), bcrypt, login, registration and password change. The authenticated user is an input (`Actor`).
- The route for processing payroll (which stores a calculation), the payroll and matter listings, the year-to-date and annual reports, the other three dashboard counts, time entries, and client creation. These are aggregation queries or plain inserts whose meaning lives in Postgres.
- Server wiring, schema bootstrap, seeding scripts and the whole frontend.
- IEEE-754 double arithmetic. Amounts are exact reals, so binary rounding error, `Infinity`, `NaN`, and `toFixed`'s exponent form for magnitudes of 10^21 and above are not modelled.
- The text of replies. Errors are a status and a reason; the insufficient-funds reply carries the two amounts, not the formatted sentence.
- JSON values of the wrong type in a request body, for example a numeric string as an amount. Amounts and the gross pay arrive as numbers, and the required text fields as strings.
- `express-validator`'s ISO-8601 check. A transaction date arrives already checked: `None` when it is absent or invalid.
- Column defaults the database fills in on insert (id, `status`, `created_at`), and the rounding of amounts to the `numeric` precision of their columns. The stored values are the computed ones.
- The catch-all 500 reply for any store error, for example a matter or payroll id that is not a UUID.
- `Matters.Update`: the request body is an object, so its keys are distinct. `UpdateColumns` assumes this; a body with a repeated key is not modelled.
- `PayCalculator.CalculateRounding`: the contribution bounds are stated through `Contribution`'s own contract rather than repeated here.

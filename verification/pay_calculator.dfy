/** The payroll calculator: from one pay period's earnings and a pay frequency
    to the SWT withheld, both superannuation contributions, net pay and the
    two percentage strings. The annual tax, the tax withheld, both
    contributions and net pay are each rounded to the cent on their own (the
    employer contribution is not derived from the employee one); total
    earnings, annual income and total deductions are not rounded. */
module PayCalculator {
  import opened Wrappers
  import Money
  import DecimalText
  import TaxTable

  /** Pay periods per year: 12 for "Monthly", 26 for any other frequency. */
  function Periods(frequency: string): (n: nat)
    ensures n == 12 || n == 26
    ensures n == 12 <==> frequency == "Monthly"
  {
    if frequency == "Monthly" then 12 else 26
  }

  /** The calculator's result object. */
  datatype PayResult = PayResult(
    grossPay: real,
    allowances: real,
    overtimePay: real,
    totalEarnings: real,
    swtTax: real,
    employeeSuper: real,
    employerSuper: real,
    otherDeductions: real,
    totalDeductions: real,
    netPay: real,
    annualIncome: real,
    annualTax: real,
    effectiveTaxRate: string,
    takeHomePct: string)

  /** `part / whole` as a percentage string, "0.00%" when `whole` is not positive. */
  function ShareText(part: real, whole: real): (t: string)
    ensures DecimalText.ParsePercent(t)
         == Some(if whole > 0.0 then DecimalText.FixedHundredths(part / whole * 100.0) else 0)
  {
    if whole > 0.0 then
      DecimalText.ParsePercentText(part / whole * 100.0);
      DecimalText.PercentText(part / whole * 100.0)
    else
      DecimalText.PercentTextZero();
      DecimalText.ParsePercentText(0.0);
      "0.00%"
  }

  /** `Math.round(earnings * rate * 100) / 100`: a superannuation contribution
      in whole cents, within half a cent of the exact share. */
  function Contribution(earnings: real, rate: real): (c: real)
    ensures Money.IsCents(c)
    ensures -0.005 < c - earnings * rate <= 0.005
  {
    Money.Round2(earnings * rate)
  }

  /** Annual income: one period's earnings times the periods in a year. */
  function Annualise(totalEarnings: real, frequency: string): (a: real)
    ensures frequency == "Monthly" ==> a == 12.0 * totalEarnings
    ensures frequency != "Monthly" ==> a == 26.0 * totalEarnings
  {
    (Periods(frequency) as real) * totalEarnings
  }

  /** The tax withheld in one period: the annual tax spread evenly over the
      periods and rounded to the cent. */
  function PeriodTax(annualTax: real, frequency: string): (t: real)
    ensures Money.IsCents(t)
    ensures -0.005 < t - annualTax / Periods(frequency) as real <= 0.005
  {
    Money.Round2(annualTax / Periods(frequency) as real)
  }

  /** One period's pay breakdown under schedule `s`. */
  function Calculate(s: TaxTable.Schedule, grossPay: real, frequency: string,
                     allowances: real, overtimePay: real, otherDeductions: real): (r: PayResult)
    // the inputs are echoed back and the sums add up
    ensures r.grossPay == grossPay && r.allowances == allowances
    ensures r.overtimePay == overtimePay && r.otherDeductions == otherDeductions
    ensures r.totalEarnings == grossPay + allowances + overtimePay
    ensures r.totalDeductions == r.swtTax + r.employeeSuper + otherDeductions
    // every figure is built from the stages above
    ensures r.annualIncome == Annualise(r.totalEarnings, frequency)
    ensures r.annualTax == TaxTable.AnnualSwt(s, r.annualIncome)
    ensures r.swtTax == PeriodTax(r.annualTax, frequency)
    ensures r.employeeSuper == Contribution(r.totalEarnings, s.employeeSuperRate)
    ensures r.employerSuper == Contribution(r.totalEarnings, s.employerSuperRate)
    ensures r.netPay == Money.Round2(r.totalEarnings - r.totalDeductions)
    ensures r.effectiveTaxRate == ShareText(r.swtTax, r.totalEarnings)
    ensures r.takeHomePct == ShareText(r.netPay, r.totalEarnings)
  {
    var totalEarnings := grossPay + allowances + overtimePay;
    var annualGross := Annualise(totalEarnings, frequency);
    var annualTax := TaxTable.AnnualSwt(s, annualGross);
    var periodTax := PeriodTax(annualTax, frequency);
    var empSuper := Contribution(totalEarnings, s.employeeSuperRate);
    var emprSuper := Contribution(totalEarnings, s.employerSuperRate);
    var totalDeduct := periodTax + empSuper + otherDeductions;
    var netPay := Money.Round2(totalEarnings - totalDeduct);
    PayResult(
      grossPay, allowances, overtimePay, totalEarnings,
      periodTax, empSuper, emprSuper, otherDeductions, totalDeduct, netPay,
      annualGross, annualTax,
      ShareText(periodTax, totalEarnings),
      ShareText(netPay, totalEarnings))
  }

  /** Income is annualised over the frequency's pay periods, and nothing is
      withheld while that income stays within the tax-free threshold. */
  lemma CalculateAnnualises(s: TaxTable.Schedule, grossPay: real, frequency: string,
                            allowances: real, overtimePay: real, otherDeductions: real)
    ensures var r := Calculate(s, grossPay, frequency, allowances, overtimePay, otherDeductions);
      && (frequency == "Monthly" ==> r.annualIncome == 12.0 * r.totalEarnings)
      && (frequency != "Monthly" ==> r.annualIncome == 26.0 * r.totalEarnings)
      && (r.annualIncome <= s.taxFree ==> r.annualTax == 0.0 && r.swtTax == 0.0)
  {
    var r := Calculate(s, grossPay, frequency, allowances, overtimePay, otherDeductions);
    var _ := Annualise(r.totalEarnings, frequency);
    if r.annualIncome <= s.taxFree {
      assert r.annualTax == 0.0;
      Money.Round2OfCents(0.0);
      assert r.swtTax == Money.Round2(0.0 / Periods(frequency) as real);
    }
  }

  /** Every monetary figure is whole cents, and the tax and net pay are within
      half a cent of the exact values they round (the contributions are
      bounded by `Contribution`'s own contract). */
  lemma CalculateRounding(s: TaxTable.Schedule, grossPay: real, frequency: string,
                          allowances: real, overtimePay: real, otherDeductions: real)
    ensures var r := Calculate(s, grossPay, frequency, allowances, overtimePay, otherDeductions);
      && Money.IsCents(r.annualTax) && Money.IsCents(r.swtTax) && Money.IsCents(r.netPay)
      && Money.IsCents(r.employeeSuper) && Money.IsCents(r.employerSuper)
      && -0.005 < r.swtTax - r.annualTax / Periods(frequency) as real <= 0.005
      && -0.005 < r.netPay - (r.totalEarnings - r.totalDeductions) <= 0.005
  {
    var r := Calculate(s, grossPay, frequency, allowances, overtimePay, otherDeductions);
    var _ := PeriodTax(r.annualTax, frequency);
    var _ := Money.Round2(r.totalEarnings - r.totalDeductions);
  }

  /** With zero total earnings (all three earnings inputs zero, or unvalidated
      negative allowances or overtime cancelling the rest) nothing is taxed or
      contributed, both percentages read "0.00%", and net pay is just the
      other deductions taken away. */
  lemma CalculateZeroEarnings(s: TaxTable.Schedule, grossPay: real, frequency: string,
                              allowances: real, overtimePay: real, otherDeductions: real)
    requires s.taxFree >= 0.0
    requires grossPay + allowances + overtimePay == 0.0
    ensures var r := Calculate(s, grossPay, frequency, allowances, overtimePay, otherDeductions);
      && r.totalEarnings == 0.0 && r.annualIncome == 0.0 && r.annualTax == 0.0
      && r.swtTax == 0.0 && r.employeeSuper == 0.0 && r.employerSuper == 0.0
      && r.effectiveTaxRate == "0.00%" && r.takeHomePct == "0.00%"
      && (otherDeductions == 0.0 ==> r.netPay == 0.0)
  {
    var r := Calculate(s, grossPay, frequency, allowances, overtimePay, otherDeductions);
    assert r.totalEarnings == 0.0;
    Money.Round2OfCents(0.0);
    assert r.annualIncome == 0.0 by { var _ := Annualise(r.totalEarnings, frequency); }
    assert r.swtTax == Money.Round2(0.0 / Periods(frequency) as real);
    assert r.employeeSuper == Money.Round2(0.0 * s.employeeSuperRate);
    assert r.employerSuper == Money.Round2(0.0 * s.employerSuperRate);
  }

  /** Annualising preserves order. */
  lemma AnnualiseMonotonic(t1: real, t2: real, frequency: string)
    requires t1 <= t2
    ensures Annualise(t1, frequency) <= Annualise(t2, frequency)
  {
    TaxTable.MulMonotonic(Periods(frequency) as real, t1, t2);
  }

  /** Spreading a larger non-negative annual tax never withholds less, and
      never withholds a negative amount. */
  lemma PeriodTaxMonotonic(x1: real, x2: real, frequency: string)
    requires 0.0 <= x1 <= x2
    ensures 0.0 <= PeriodTax(x1, frequency) <= PeriodTax(x2, frequency)
  {
    var p := Periods(frequency) as real;
    TaxTable.MulMonotonic(1.0 / p, 0.0, x1);
    TaxTable.MulMonotonic(1.0 / p, x1, x2);
    assert x1 / p == (1.0 / p) * x1 && x2 / p == (1.0 / p) * x2;
    Money.Round2Monotonic(0.0, x1 / p);
    Money.Round2Monotonic(x1 / p, x2 / p);
    Money.Round2OfCents(0.0);
  }

  /** Earning more in a period never lowers the SWT withheld for that period,
      at the same frequency, under a consistent schedule; nothing withheld is
      ever negative. */
  lemma SwtMonotonic(s: TaxTable.Schedule, frequency: string,
                     g1: real, a1: real, o1: real, g2: real, a2: real, o2: real, d1: real, d2: real)
    requires TaxTable.WellFormed(s)
    requires g1 + a1 + o1 <= g2 + a2 + o2
    ensures 0.0 <= Calculate(s, g1, frequency, a1, o1, d1).swtTax
    ensures Calculate(s, g1, frequency, a1, o1, d1).swtTax <= Calculate(s, g2, frequency, a2, o2, d2).swtTax
  {
    var r1 := Calculate(s, g1, frequency, a1, o1, d1);
    var r2 := Calculate(s, g2, frequency, a2, o2, d2);
    AnnualiseMonotonic(r1.totalEarnings, r2.totalEarnings, frequency);
    TaxTable.AnnualSwtMonotonic(s, r1.annualIncome, r2.annualIncome);
    PeriodTaxMonotonic(r1.annualTax, r2.annualTax, frequency);
  }

  /** Worked example: K2,000 a fortnight gives K52,000 a year, K11,175.00
      annual SWT, K429.81 withheld, K120.00 employee and K168.00 employer
      super, and K1,450.19 net pay. */
  lemma FortnightlyExample()
    ensures var r := Calculate(TaxTable.Png, 2000.0, "Fortnightly", 0.0, 0.0, 0.0);
      && r.totalEarnings == 2000.0 && r.annualIncome == 52000.0
      && r.annualTax == 11175.0 && r.swtTax == 429.81
      && r.employeeSuper == 120.0 && r.employerSuper == 168.0
      && r.totalDeductions == 549.81 && r.netPay == 1450.19
  {
    FortnightlyWithholding();
    FortnightlyContributions();
    TaxTable.PngBoundaries();
    var r := Calculate(TaxTable.Png, 2000.0, "Fortnightly", 0.0, 0.0, 0.0);
    assert r.annualIncome == 52000.0 by { var _ := Annualise(2000.0, "Fortnightly"); }
    assert r.netPay == 1450.19 by { Money.Round2OfCents(1450.19); }
  }

  /** Halves go toward +infinity: on total earnings of -0.25 the employee
      contribution of -0.015 rounds to -0.01, not away from zero to -0.02. */
  lemma NegativeHalfCent()
    ensures Contribution(-0.25, TaxTable.Png.employeeSuperRate) == -0.01
  {
    assert -0.01 * 100.0 == (-1) as real;
    Money.Round2Unique(-0.25 * 0.06, -0.01);
  }

  /** K11,175.00 a year withheld fortnightly is K429.81 a period. */
  lemma FortnightlyWithholding()
    ensures PeriodTax(11175.0, "Fortnightly") == 429.81
  {
    assert Periods("Fortnightly") == 26;
    assert 429.81 * 100.0 == 42981.0;
    Money.Round2Unique(11175.0 / 26.0, 429.81);
  }

  /** The two contributions on K2,000 at the schedule's rates. */
  lemma FortnightlyContributions()
    ensures Contribution(2000.0, TaxTable.Png.employeeSuperRate) == 120.0
    ensures Contribution(2000.0, TaxTable.Png.employerSuperRate) == 168.0
  {
    Money.Round2OfCents(120.0);
    Money.Round2OfCents(168.0);
  }

  /** The same example's percentage strings read 21.49% and 72.51%. */
  lemma FortnightlyExampleShares()
    ensures var r := Calculate(TaxTable.Png, 2000.0, "Fortnightly", 0.0, 0.0, 0.0);
      && DecimalText.ParsePercent(r.effectiveTaxRate) == Some(2149)
      && DecimalText.ParsePercent(r.takeHomePct) == Some(7251)
  {
    var r := Calculate(TaxTable.Png, 2000.0, "Fortnightly", 0.0, 0.0, 0.0);
    assert r.effectiveTaxRate == ShareText(429.81, 2000.0) && r.takeHomePct == ShareText(1450.19, 2000.0) by {
      FortnightlyExample();
    }
    ExampleShares();
  }

  /** K429.81 and K1,450.19 of K2,000 are 21.49% and 72.51%. */
  lemma ExampleShares()
    ensures DecimalText.ParsePercent(ShareText(429.81, 2000.0)) == Some(2149)
    ensures DecimalText.ParsePercent(ShareText(1450.19, 2000.0)) == Some(7251)
  {
    assert 429.81 / 2000.0 * 100.0 == 21.4905;
    assert Money.RoundCents(21.4905) == 2149;
    assert 1450.19 / 2000.0 * 100.0 == 72.5095;
    assert Money.RoundCents(72.5095) == 7251;
  }
}

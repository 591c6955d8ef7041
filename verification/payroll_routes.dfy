/** The payroll routes around the calculator: the preview route that accepts
    a request, runs the calculator and shapes its reply, the status update of
    a stored payroll record, and the access rule for one staff member's
    payroll history. */
module PayrollRoutes {
  import opened Wrappers
  import opened Api
  import Money
  import TaxTable
  import PayCalculator

  /** The frequencies the preview and process routes accept. */
  const Frequencies: seq<string> := ["Fortnightly", "Monthly"]

  /** The statuses a payroll record may be set to. */
  const Statuses: seq<string> := ["Pending", "Processed", "Paid"]

  // ---------------------------------------------------------------------------
  // POST /calculate

  /** The body of a preview request; absent fields are `None`. */
  datatype CalcRequest = CalcRequest(
    grossPay: Option<real>,
    payFrequency: Option<string>,
    allowances: Option<real>,
    overtimePay: Option<real>,
    otherDeductions: Option<real>)

  /** One line of the breakdown table: a label, a signed amount, and whether
      it is a total. */
  datatype BreakdownRow = BreakdownRow(title: string, amount: real, bold: bool)

  /** What employing the person costs the firm this period. */
  datatype EmployerCost = EmployerCost(netPayment: real, employerSuper: real, totalCostToFirm: real)

  /** The reply's data object. */
  datatype CalcReply = CalcReply(
    payFrequency: string,
    result: PayCalculator.PayResult,
    breakdown: seq<BreakdownRow>,
    employerCost: EmployerCost)

  /** The validation chain of the preview route. */
  function CalcChecks(req: CalcRequest): seq<(string, bool)> {
    [ ("grossPay", req.grossPay.Some? && req.grossPay.value >= 0.0),
      ("payFrequency", req.payFrequency.Some? && req.payFrequency.value in Frequencies) ]
  }

  /** The preview request passes validation. */
  predicate CalcAccepted(req: CalcRequest) {
    && req.grossPay.Some? && req.grossPay.value >= 0.0
    && req.payFrequency.Some? && req.payFrequency.value in Frequencies
  }

  /** The labels of the eight breakdown rows, top to bottom. */
  const BreakdownTitles: seq<string> := [
    "Gross Pay", "Allowances", "Overtime Pay", "Total Earnings",
    "SWT Tax (PNG IRC 2026)", "Employee Super (6%)", "Other Deductions", "Net Pay"]

  /** The eight breakdown rows: earnings and totals as they are, deductions negated. */
  function Breakdown(r: PayCalculator.PayResult): (rows: seq<BreakdownRow>)
    ensures |rows| == 8
    ensures forall i :: 0 <= i < 8 ==> rows[i].title == BreakdownTitles[i]
    ensures forall i :: 0 <= i < 8 ==> (rows[i].bold <==> i == 3 || i == 7)
  {
    [ BreakdownRow("Gross Pay", r.grossPay, false),
      BreakdownRow("Allowances", r.allowances, false),
      BreakdownRow("Overtime Pay", r.overtimePay, false),
      BreakdownRow("Total Earnings", r.totalEarnings, true),
      BreakdownRow("SWT Tax (PNG IRC 2026)", -r.swtTax, false),
      BreakdownRow("Employee Super (6%)", -r.employeeSuper, false),
      BreakdownRow("Other Deductions", -r.otherDeductions, false),
      BreakdownRow("Net Pay", r.netPay, true) ]
  }

  /** The employer-cost block: net pay, the employer's contribution, and
      their sum with total earnings rounded to the cent. */
  function CostToFirm(r: PayCalculator.PayResult): (c: EmployerCost)
    ensures c.netPayment == r.netPay && c.employerSuper == r.employerSuper
    ensures Money.IsCents(c.totalCostToFirm)
    ensures -0.005 < c.totalCostToFirm - (r.totalEarnings + r.employerSuper) <= 0.005
  {
    EmployerCost(r.netPay, r.employerSuper, Money.Round2(r.totalEarnings + r.employerSuper))
  }

  /** POST /api/payroll/calculate: Admin or Partner only; 400 unless the gross
      pay is a non-negative number and the frequency is Fortnightly or
      Monthly; the three optional amounts default to 0. */
  function CalculateRoute(actor: Actor, req: CalcRequest): (r: Result<CalcReply, HttpError>)
    ensures !Authorized(actor, ["Admin", "Partner"]) ==> r == Failure(ForbiddenError)
    ensures Authorized(actor, ["Admin", "Partner"]) && !CalcAccepted(req) ==>
      r.Failure? && r.error.status == 400 && r.error.reason.ValidationFailed?
      && ("grossPay" in r.error.reason.fields <==> !(req.grossPay.Some? && req.grossPay.value >= 0.0))
      && ("payFrequency" in r.error.reason.fields <==> !(req.payFrequency.Some? && req.payFrequency.value in Frequencies))
    ensures r.Success? <==> Authorized(actor, ["Admin", "Partner"]) && CalcAccepted(req)
    ensures r.Success? ==>
      && r.value.payFrequency == req.payFrequency.value
      && r.value.result.grossPay == req.grossPay.value
      && (req.allowances.None? ==> r.value.result.allowances == 0.0)
      && (req.overtimePay.None? ==> r.value.result.overtimePay == 0.0)
      && (req.otherDeductions.None? ==> r.value.result.otherDeductions == 0.0)
      && (req.allowances.Some? ==> r.value.result.allowances == req.allowances.value)
      && (req.overtimePay.Some? ==> r.value.result.overtimePay == req.overtimePay.value)
      && (req.otherDeductions.Some? ==> r.value.result.otherDeductions == req.otherDeductions.value)
      && r.value.result == PayCalculator.Calculate(TaxTable.Png, r.value.result.grossPay, r.value.payFrequency,
           r.value.result.allowances, r.value.result.overtimePay, r.value.result.otherDeductions)
      && r.value.breakdown == Breakdown(r.value.result)
      && r.value.employerCost == CostToFirm(r.value.result)
  {
    if !Authorized(actor, ["Admin", "Partner"]) then Failure(ForbiddenError)
    else
      var checks := CalcChecks(req);
      var failed := FailedFields(checks);
      assert CalcAccepted(req) <==> checks[0].1 && checks[1].1;
      assert checks[0].0 == "grossPay" && checks[1].0 == "payFrequency";
      if failed != [] then Failure(HttpError(400, ValidationFailed(failed)))
      else
        var result := PayCalculator.Calculate(TaxTable.Png, req.grossPay.value, req.payFrequency.value,
          req.allowances.GetOr(0.0), req.overtimePay.GetOr(0.0), req.otherDeductions.GetOr(0.0));
        Success(CalcReply(req.payFrequency.value, result, Breakdown(result), CostToFirm(result)))
  }

  /** The breakdown reconciles: the three earnings rows add up to the total
      row, the three deduction rows carry total deductions negated, and the
      total row plus the deduction rows is the net pay row to within the half
      cent the net pay was rounded by. */
  lemma BreakdownReconciles(s: TaxTable.Schedule, grossPay: real, frequency: string,
                            allowances: real, overtimePay: real, otherDeductions: real)
    ensures var rows := Breakdown(PayCalculator.Calculate(s, grossPay, frequency, allowances, overtimePay, otherDeductions));
      && rows[0].amount + rows[1].amount + rows[2].amount == rows[3].amount
      && -0.005 < rows[7].amount - (rows[3].amount + rows[4].amount + rows[5].amount + rows[6].amount) <= 0.005
      && rows[4].amount + rows[5].amount + rows[6].amount
         == -PayCalculator.Calculate(s, grossPay, frequency, allowances, overtimePay, otherDeductions).totalDeductions
  {
    PayCalculator.CalculateRounding(s, grossPay, frequency, allowances, overtimePay, otherDeductions);
  }

  /** The sign convention of the breakdown: with non-negative inputs under a
      consistent schedule, the earnings rows and their total are never
      negative and the three deduction rows are never positive. */
  lemma BreakdownSigns(s: TaxTable.Schedule, grossPay: real, frequency: string,
                       allowances: real, overtimePay: real, otherDeductions: real)
    requires TaxTable.WellFormed(s)
    requires grossPay >= 0.0 && allowances >= 0.0 && overtimePay >= 0.0 && otherDeductions >= 0.0
    ensures var rows := Breakdown(PayCalculator.Calculate(s, grossPay, frequency, allowances, overtimePay, otherDeductions));
      && (forall i :: 0 <= i < 4 ==> rows[i].amount >= 0.0)
      && (forall i :: 4 <= i < 7 ==> rows[i].amount <= 0.0)
  {
    var r := PayCalculator.Calculate(s, grossPay, frequency, allowances, overtimePay, otherDeductions);
    assert r.swtTax >= 0.0 by {
      PayCalculator.SwtMonotonic(s, frequency, grossPay, allowances, overtimePay,
                                 grossPay, allowances, overtimePay, otherDeductions, otherDeductions);
    }
    assert r.employeeSuper >= 0.0 by {
      ContributionNonNegative(r.totalEarnings, s.employeeSuperRate);
    }
    RowSigns(r);
  }

  /** A contribution on non-negative earnings at a non-negative rate is non-negative. */
  lemma ContributionNonNegative(earnings: real, rate: real)
    requires earnings >= 0.0 && rate >= 0.0
    ensures PayCalculator.Contribution(earnings, rate) >= 0.0
  {
    TaxTable.MulMonotonic(rate, 0.0, earnings);
    Money.Round2Monotonic(0.0, earnings * rate);
    Money.Round2OfCents(0.0);
  }

  /** The breakdown's signs follow from the signs of the figures it shows. */
  lemma RowSigns(r: PayCalculator.PayResult)
    requires r.grossPay >= 0.0 && r.allowances >= 0.0 && r.overtimePay >= 0.0 && r.totalEarnings >= 0.0
    requires r.swtTax >= 0.0 && r.employeeSuper >= 0.0 && r.otherDeductions >= 0.0
    ensures forall i :: 0 <= i < 4 ==> Breakdown(r)[i].amount >= 0.0
    ensures forall i :: 4 <= i < 7 ==> Breakdown(r)[i].amount <= 0.0
  {
  }

  /** When total earnings are whole cents (as they are when the three inputs
      are), the cost to the firm is exactly total earnings plus the employer
      contribution; the rounding changes nothing. */
  lemma CostToFirmExact(r: PayCalculator.PayResult)
    requires Money.IsCents(r.totalEarnings) && Money.IsCents(r.employerSuper)
    ensures CostToFirm(r).totalCostToFirm == r.totalEarnings + r.employerSuper
  {
    Money.CentsAdd(r.totalEarnings, r.employerSuper);
    Money.Round2OfCents(r.totalEarnings + r.employerSuper);
  }

  // ---------------------------------------------------------------------------
  // PUT /:id/status

  /** A stored payroll record: column name to value. */
  type Record = map<string, Json>

  /** The body of a status update. */
  datatype StatusRequest = StatusRequest(status: Option<Json>, paymentDate: Option<Json>)

  /** The requested status is one of the three allowed names. */
  predicate StatusAccepted(req: StatusRequest) {
    req.status.Some? && req.status.value.JStr? && req.status.value.s in Statuses
  }

  /** The update also records the payment date: the new status is "Paid" and
      a (truthy) payment date was sent. */
  predicate RecordsPayment(req: StatusRequest) {
    && req.status == Some(JStr("Paid"))
    && req.paymentDate.Some? && Truthy(req.paymentDate.value)
  }

  /** PUT /api/payroll/:id/status: Admin only; 400 for any other status; the
      status is set, the payment date too when `RecordsPayment`; 404 when no
      record has the id. */
  function UpdateStatus(records: map<string, Record>, actor: Actor, id: string, req: StatusRequest)
    : (r: Result<map<string, Record>, HttpError>)
    ensures !Authorized(actor, ["Admin"]) ==> r == Failure(ForbiddenError)
    ensures Authorized(actor, ["Admin"]) && !StatusAccepted(req) ==>
      r == Failure(HttpError(400, ValidationFailed(["status"])))
    ensures Authorized(actor, ["Admin"]) && StatusAccepted(req) && id !in records ==>
      r == Failure(HttpError(404, NotFound))
    ensures r.Success? <==> Authorized(actor, ["Admin"]) && StatusAccepted(req) && id in records
    ensures r.Success? ==>
      && r.value.Keys == records.Keys
      && (forall other :: other in records && other != id ==> r.value[other] == records[other])
  {
    if !Authorized(actor, ["Admin"]) then Failure(ForbiddenError)
    else if !StatusAccepted(req) then Failure(HttpError(400, ValidationFailed(["status"])))
    else if id !in records then Failure(HttpError(404, NotFound))
    else
      var withStatus := records[id]["status" := req.status.value];
      var updated := if req.status.value == JStr("Paid") && req.paymentDate.Some? && Truthy(req.paymentDate.value)
        then withStatus["payment_date" := req.paymentDate.value]
        else withStatus;
      Success(records[id := updated])
  }

  /** What an accepted status update does to the record: `status` takes the
      new value; `payment_date` takes the sent date exactly when
      `RecordsPayment` holds and is otherwise left as it was; every other
      column is unchanged. */
  lemma UpdateStatusColumns(records: map<string, Record>, actor: Actor, id: string, req: StatusRequest, k: string)
    requires UpdateStatus(records, actor, id, req).Success?
    ensures var before := records[id];
      var after := UpdateStatus(records, actor, id, req).value[id];
      && "status" in after && after["status"] == req.status.value
      && (RecordsPayment(req) ==> "payment_date" in after && after["payment_date"] == req.paymentDate.value)
      && (!RecordsPayment(req) ==> ("payment_date" in after <==> "payment_date" in before))
      && (!RecordsPayment(req) && "payment_date" in before ==> after["payment_date"] == before["payment_date"])
      && (k != "status" && k != "payment_date" ==> (k in after <==> k in before) && (k in before ==> after[k] == before[k]))
  {
  }

  // ---------------------------------------------------------------------------
  // GET /staff/:staffId

  /** GET /api/payroll/staff/:staffId: a user may read their own payroll
      history; Admins and Partners may read anyone's; everyone else gets 403.
      On success the records read are those of `staffId`. */
  function StaffPayrollAccess(actor: Actor, staffId: string): (r: Result<string, HttpError>)
    ensures r.Success? <==> actor.id == staffId || actor.role in ["Admin", "Partner"]
    ensures r.Success? ==> r.value == staffId
    ensures r.Failure? ==> r.error == ForbiddenError
  {
    if actor.id != staffId && actor.role !in ["Admin", "Partner"] then Failure(ForbiddenError)
    else Success(staffId)
  }

  /** An accepted preview reports the calculator's figures, with the three
      optional amounts defaulted to 0: minus the tax on the SWT row, the net
      pay on the last row. */
  lemma PreviewFigures(actor: Actor, req: CalcRequest)
    requires Authorized(actor, ["Admin", "Partner"]) && CalcAccepted(req)
    ensures var r := CalculateRoute(actor, req);
      && r.Success?
      && r.value.breakdown[4].amount == -r.value.result.swtTax
      && r.value.breakdown[7].amount == r.value.result.netPay
      && r.value.employerCost == CostToFirm(r.value.result)
  {
  }

  /** Worked example of the preview route: a Partner previewing K2,000
      fortnightly with no other amounts sees net pay K1,450.19, an SWT row of
      -K429.81 and a cost to the firm of K2,168.00. */
  lemma PreviewExample(partner: Actor)
    requires partner.role == "Partner"
    ensures var r := CalculateRoute(partner, CalcRequest(Some(2000.0), Some("Fortnightly"), None, None, None));
      && r.Success?
      && r.value.breakdown[4].amount == -429.81
      && r.value.breakdown[7].amount == 1450.19
      && r.value.employerCost.totalCostToFirm == 2168.0
  {
    var req := CalcRequest(Some(2000.0), Some("Fortnightly"), None, None, None);
    var r := PayCalculator.Calculate(TaxTable.Png, 2000.0, "Fortnightly", 0.0, 0.0, 0.0);
    var reply := CalculateRoute(partner, req).value;
    assert CalculateRoute(partner, req).Success? && reply.result == r
      && reply.breakdown[4].amount == -reply.result.swtTax
      && reply.breakdown[7].amount == reply.result.netPay
      && reply.employerCost == CostToFirm(reply.result) by {
      assert Authorized(partner, ["Admin", "Partner"]);
      assert CalcAccepted(req);
      PreviewFigures(partner, req);
      assert reply.payFrequency == "Fortnightly" && reply.result.grossPay == 2000.0;
      assert reply.result.allowances == 0.0 && reply.result.overtimePay == 0.0 && reply.result.otherDeductions == 0.0;
    }
    assert r.swtTax == 429.81 && r.netPay == 1450.19 && r.totalEarnings == 2000.0 && r.employerSuper == 168.0 by {
      PayCalculator.FortnightlyExample();
    }
    assert CostToFirm(r).totalCostToFirm == 2168.0 by {
      assert (2000.0 + 168.0) * 100.0 == 216800.0;
      Money.Round2OfCents(2000.0 + 168.0);
    }
  }
}

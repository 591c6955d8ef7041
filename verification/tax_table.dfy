/** The progressive Salary or Wages Tax (SWT) schedule: a tax-free threshold,
    an ordered table of marginal brackets over the amount above the threshold
    (each with the tax already owed at its lower edge), and the two
    superannuation rates. `AnnualSwt` is the bracket search of the calculator;
    `MarginalTax` is an independent reading of the same table (each band taxed
    at its own rate) that the search is proved to agree with. */
module TaxTable {
  import opened Wrappers
  import Money

  /** The upper edge of a bracket; the last bracket has none (`Infinity`). */
  datatype Limit = Upto(bound: real) | Unbounded

  /** One marginal bracket: taxable amounts up to `limit` are taxed at `rate`
      above the previous bracket's limit, on top of `cumulative`. */
  datatype Bracket = Bracket(limit: Limit, rate: real, cumulative: real)

  /** A complete, replaceable tax schedule. */
  datatype Schedule = Schedule(
    taxFree: real,
    brackets: seq<Bracket>,
    employeeSuperRate: real,
    employerSuperRate: real)

  /** `taxable <= bkt.limit`, with an unbounded limit admitting everything. */
  predicate Fits(b: Bracket, taxable: real) {
    b.limit.Unbounded? || taxable <= b.limit.bound
  }

  /** `prev`: the lower edge of bracket `i`, 0 for the first bracket. */
  function Lower(bs: seq<Bracket>, i: nat): real
    requires i <= |bs|
    requires i > 0 ==> bs[i - 1].limit.Upto?
  {
    if i == 0 then 0.0 else bs[i - 1].limit.bound
  }

  /** The bracket loop from index `i` on: the first bracket that fits gives
      `cumulative + (taxable - prev) * rate`; running off the end gives nothing. */
  function Lookup(bs: seq<Bracket>, taxable: real, i: nat): (r: Option<real>)
    requires i <= |bs|
    requires i > 0 ==> !Fits(bs[i - 1], taxable)
    ensures r.None? <==> forall j :: i <= j < |bs| ==> !Fits(bs[j], taxable)
    decreases |bs| - i
  {
    if i == |bs| then None
    else if Fits(bs[i], taxable) then Some(bs[i].cumulative + (taxable - Lower(bs, i)) * bs[i].rate)
    else Lookup(bs, taxable, i + 1)
  }

  /** Annual SWT on an annualised gross: zero up to the threshold, otherwise
      the bracket formula rounded to the cent; 0 if no bracket fits. */
  function AnnualSwt(s: Schedule, annualGross: real): (r: real)
    ensures annualGross <= s.taxFree ==> r == 0.0
    ensures Money.IsCents(r)
  {
    if annualGross <= s.taxFree then 0.0
    else
      match Lookup(s.brackets, annualGross - s.taxFree, 0)
      case Some(tax) => Money.Round2(tax)
      case None => 0.0
  }

  /** The shape of a table from lower edge `prev`: rates are non-negative,
      limits strictly increase, and only the last bracket is unbounded. */
  predicate Ascending(bs: seq<Bracket>, prev: real)
    decreases |bs|
  {
    && |bs| > 0
    && bs[0].rate >= 0.0
    && match bs[0].limit
       case Unbounded => |bs| == 1
       case Upto(l) => l > prev && Ascending(bs[1..], l)
  }

  /** The precomputed column of a table from lower edge `prev`, where `cum`
      tax is owed: every `cumulative` is the previous one plus the whole
      previous band taxed at its rate. */
  predicate Cumulative(bs: seq<Bracket>, prev: real, cum: real)
    decreases |bs|
  {
    && |bs| > 0
    && bs[0].cumulative == cum
    && match bs[0].limit
       case Unbounded => true
       case Upto(l) => |bs| > 1 ==> Cumulative(bs[1..], l, cum + (l - prev) * bs[0].rate)
  }

  /** A consistent table: ascending, with a correct cumulative column. */
  predicate WellFormedFrom(bs: seq<Bracket>, prev: real, cum: real) {
    Ascending(bs, prev) && Cumulative(bs, prev, cum)
  }

  predicate WellFormed(s: Schedule) {
    && s.taxFree >= 0.0
    && WellFormedFrom(s.brackets, 0.0, 0.0)
    && s.employeeSuperRate >= 0.0
    && s.employerSuperRate >= 0.0
  }

  /** How much of `taxable` lies in the band (lo, hi]. */
  function Band(taxable: real, lo: real, hi: Limit): real {
    if taxable <= lo then 0.0
    else if hi.Unbounded? || taxable <= hi.bound then taxable - lo
    else hi.bound - lo
  }

  /** Reference definition: each band's share of `taxable` taxed at its own rate. */
  function MarginalTax(bs: seq<Bracket>, taxable: real, prev: real): real
    decreases |bs|
  {
    if |bs| == 0 then 0.0
    else
      var here := bs[0].rate * Band(taxable, prev, bs[0].limit);
      match bs[0].limit
      case Unbounded => here
      case Upto(l) => here + MarginalTax(bs[1..], taxable, l)
  }

  /** Nothing at or below a table's lower edge is taxed. */
  lemma {:induction false} MarginalTaxBelow(bs: seq<Bracket>, taxable: real, prev: real)
    requires Ascending(bs, prev)
    requires taxable <= prev
    ensures MarginalTax(bs, taxable, prev) == 0.0
    decreases |bs|
  {
    assert Band(taxable, prev, bs[0].limit) == 0.0;
    match bs[0].limit
    case Unbounded =>
    case Upto(l) =>
      MarginalTaxBelow(bs[1..], taxable, l);
  }

  /** The search from bracket `i` agrees with the reference definition over the
      rest of a consistent table. */
  lemma {:induction false} LookupFrom(bs: seq<Bracket>, taxable: real, i: nat, prev: real, cum: real)
    requires i < |bs|
    requires i > 0 ==> !Fits(bs[i - 1], taxable)
    requires prev == Lower(bs, i)
    requires WellFormedFrom(bs[i..], prev, cum)
    requires taxable > prev
    ensures Lookup(bs, taxable, i) == Some(cum + MarginalTax(bs[i..], taxable, prev))
    decreases |bs| - i
  {
    var b := bs[i];
    var rest := bs[i..];
    assert rest[0] == b;
    if Fits(b, taxable) {
      FittingBracket(rest, taxable, prev);
      LookupAtFit(bs, taxable, i);
    } else {
      var l := b.limit.bound;
      var cum' := cum + (l - prev) * b.rate;
      PassedBracket(rest, taxable, prev, cum, l, cum');
      assert rest[1..] == bs[i + 1..];
      LookupFrom(bs, taxable, i + 1, l, cum');
    }
  }

  /** When the taxable amount lies beyond the first bracket of a consistent
      table, that whole band is taxed and the rest of the table takes over. */
  lemma PassedBracket(bs: seq<Bracket>, taxable: real, prev: real, cum: real, l: real, cum': real)
    requires WellFormedFrom(bs, prev, cum)
    requires bs[0].limit == Upto(l) && taxable > l
    requires cum' == cum + (l - prev) * bs[0].rate
    ensures WellFormedFrom(bs[1..], l, cum')
    ensures cum + MarginalTax(bs, taxable, prev) == cum' + MarginalTax(bs[1..], taxable, l)
  {
    assert Ascending(bs[1..], l);
    assert |bs| > 1;
    AscendingTail(bs, prev);
    CumulativeTail(bs, prev, cum);
    assert Band(taxable, prev, bs[0].limit) == l - prev;
    assert MarginalTax(bs, taxable, prev) == bs[0].rate * (l - prev) + MarginalTax(bs[1..], taxable, l);
    assert (l - prev) * bs[0].rate == bs[0].rate * (l - prev);
  }

  lemma LookupAtFit(bs: seq<Bracket>, taxable: real, i: nat)
    requires i < |bs|
    requires i > 0 ==> !Fits(bs[i - 1], taxable)
    requires Fits(bs[i], taxable)
    ensures Lookup(bs, taxable, i) == Some(bs[i].cumulative + (taxable - Lower(bs, i)) * bs[i].rate)
  {
  }

  /** When the first bracket of a consistent table fits, the reference tax is
      that bracket's rate on the amount above the lower edge. */
  lemma FittingBracket(bs: seq<Bracket>, taxable: real, prev: real)
    requires Ascending(bs, prev)
    requires Fits(bs[0], taxable)
    requires taxable > prev
    ensures MarginalTax(bs, taxable, prev) == (taxable - prev) * bs[0].rate
  {
    var b := bs[0];
    assert Band(taxable, prev, b.limit) == taxable - prev;
    if b.limit.Upto? {
      var l := b.limit.bound;
      MarginalTaxBelow(bs[1..], taxable, l);
      assert MarginalTax(bs, taxable, prev) == b.rate * (taxable - prev) + MarginalTax(bs[1..], taxable, l);
    } else {
      assert MarginalTax(bs, taxable, prev) == b.rate * (taxable - prev);
    }
  }

  /** Above the threshold of a consistent schedule some bracket always fits
      (the last is unbounded, so the trailing `return 0` is unreachable), and
      the annual tax is the reference marginal tax rounded to the cent. */
  lemma AnnualSwtIsMarginal(s: Schedule, annualGross: real)
    requires WellFormed(s)
    requires annualGross > s.taxFree
    ensures Lookup(s.brackets, annualGross - s.taxFree, 0).Some?
    ensures AnnualSwt(s, annualGross) == Money.Round2(MarginalTax(s.brackets, annualGross - s.taxFree, 0.0))
  {
    assert s.brackets[0..] == s.brackets;
    LookupFrom(s.brackets, annualGross - s.taxFree, 0, 0.0, 0.0);
  }

  /** The search from `i` skips brackets that do not fit. */
  lemma {:induction false} LookupSkips(bs: seq<Bracket>, taxable: real, i: nat, k: nat)
    requires i <= k < |bs|
    requires forall j :: 0 <= j < k ==> !Fits(bs[j], taxable)
    ensures Lookup(bs, taxable, i) == Lookup(bs, taxable, k)
    decreases k - i
  {
    if i < k {
      LookupSkips(bs, taxable, i + 1, k);
    }
  }

  /** The bracket used is the first one whose limit is at least the taxable
      amount, and its formula is `cumulative + (taxable - prev) * rate`. */
  lemma LookupFirstFit(bs: seq<Bracket>, taxable: real, k: nat)
    requires k < |bs|
    requires Fits(bs[k], taxable)
    requires forall j :: 0 <= j < k ==> !Fits(bs[j], taxable)
    ensures k > 0 ==> bs[k - 1].limit.Upto?
    ensures Lookup(bs, taxable, 0) == Some(bs[k].cumulative + (taxable - Lower(bs, k)) * bs[k].rate)
  {
    LookupSkips(bs, taxable, 0, k);
    LookupAtFit(bs, taxable, k);
  }

  lemma AscendingTail(bs: seq<Bracket>, prev: real)
    requires Ascending(bs, prev) && |bs| > 1
    ensures bs[0].limit.Upto? && Ascending(bs[1..], bs[0].limit.bound)
  {
  }

  lemma CumulativeTail(bs: seq<Bracket>, prev: real, cum: real)
    requires Cumulative(bs, prev, cum) && |bs| > 1 && bs[0].limit.Upto?
    ensures Cumulative(bs[1..], bs[0].limit.bound, cum + (bs[0].limit.bound - prev) * bs[0].rate)
  {
  }

  /** Every suffix of a consistent table is consistent from its own lower edge
      and its own `cumulative`. */
  lemma {:induction false} WellFormedSuffix(bs: seq<Bracket>, i: nat)
    requires WellFormedFrom(bs, 0.0, 0.0)
    requires i < |bs|
    ensures i > 0 ==> bs[i - 1].limit.Upto?
    ensures WellFormedFrom(bs[i..], Lower(bs, i), bs[i].cumulative)
  {
    if i == 0 {
      assert bs[0..] == bs;
    } else {
      WellFormedSuffix(bs, i - 1);
      var tail := bs[i - 1..];
      assert tail[0] == bs[i - 1] && |tail| > 1;
      assert tail[1..] == bs[i..];
      AscendingTail(tail, Lower(bs, i - 1));
      var l := bs[i - 1].limit.bound;
      var c := bs[i - 1].cumulative + (l - Lower(bs, i - 1)) * bs[i - 1].rate;
      CumulativeTail(tail, Lower(bs, i - 1), bs[i - 1].cumulative);
      assert Cumulative(bs[i..], l, c);
      assert bs[i..][0] == bs[i];
      assert bs[i].cumulative == c;
    }
  }

  /** Consistency of the table: at every finite bracket edge, the bracket that
      ends there and the bracket that starts there give the same tax, so the
      tax has no jump at the edge. */
  lemma EdgeContinuity(bs: seq<Bracket>, k: nat)
    requires WellFormedFrom(bs, 0.0, 0.0)
    requires k + 1 < |bs|
    ensures k > 0 ==> bs[k - 1].limit.Upto?
    ensures bs[k].limit.Upto?
    ensures bs[k].cumulative + (bs[k].limit.bound - Lower(bs, k)) * bs[k].rate
         == bs[k + 1].cumulative + (bs[k].limit.bound - Lower(bs, k + 1)) * bs[k + 1].rate
  {
    WellFormedSuffix(bs, k + 1);
    WellFormedSuffix(bs, k);
    var tail := bs[k..];
    assert tail[0] == bs[k] && |tail| > 1;
    assert tail[1..] == bs[k + 1..];
    var l := bs[k].limit.bound;
    var c := bs[k].cumulative + (l - Lower(bs, k)) * bs[k].rate;
    CumulativeTail(tail, Lower(bs, k), bs[k].cumulative);
    assert bs[k + 1..][0] == bs[k + 1];
    assert bs[k + 1].cumulative == c;
    assert (l - Lower(bs, k + 1)) * bs[k + 1].rate == 0.0;
  }

  /** A band's share never shrinks as the taxable amount grows. */
  lemma BandMonotonic(a: real, b: real, lo: real, hi: Limit)
    requires a <= b
    requires hi.Upto? ==> lo < hi.bound
    ensures 0.0 <= Band(a, lo, hi) <= Band(b, lo, hi)
  {
  }

  lemma MulMonotonic(r: real, x: real, y: real)
    requires r >= 0.0 && x <= y
    ensures r * x <= r * y
  {
    assert r * y - r * x == r * (y - x);
  }

  lemma AddMonotonic(x1: real, x2: real, y1: real, y2: real)
    requires 0.0 <= x1 <= x2 && 0.0 <= y1 <= y2
    ensures 0.0 <= x1 + y1 <= x2 + y2
  {
  }

  /** The first band's share of the reference tax grows with the taxable amount. */
  lemma FirstBandMonotonic(bs: seq<Bracket>, a: real, b: real, prev: real)
    requires Ascending(bs, prev)
    requires a <= b
    ensures 0.0 <= bs[0].rate * Band(a, prev, bs[0].limit) <= bs[0].rate * Band(b, prev, bs[0].limit)
  {
    BandMonotonic(a, b, prev, bs[0].limit);
    MulMonotonic(bs[0].rate, 0.0, Band(a, prev, bs[0].limit));
    MulMonotonic(bs[0].rate, Band(a, prev, bs[0].limit), Band(b, prev, bs[0].limit));
  }

  /** The reference tax is non-negative and grows with the taxable amount. */
  lemma {:induction false} MarginalTaxMonotonic(bs: seq<Bracket>, a: real, b: real, prev: real)
    requires Ascending(bs, prev)
    requires a <= b
    ensures 0.0 <= MarginalTax(bs, a, prev) <= MarginalTax(bs, b, prev)
    decreases |bs|
  {
    FirstBandMonotonic(bs, a, b, prev);
    var hereA := bs[0].rate * Band(a, prev, bs[0].limit);
    var hereB := bs[0].rate * Band(b, prev, bs[0].limit);
    if bs[0].limit.Upto? {
      var l := bs[0].limit.bound;
      MarginalTaxMonotonic(bs[1..], a, b, l);
      var restA := MarginalTax(bs[1..], a, l);
      var restB := MarginalTax(bs[1..], b, l);
      assert MarginalTax(bs, a, prev) == hereA + restA;
      assert MarginalTax(bs, b, prev) == hereB + restB;
      AddMonotonic(hereA, hereB, restA, restB);
    } else {
      assert MarginalTax(bs, a, prev) == hereA;
      assert MarginalTax(bs, b, prev) == hereB;
    }
  }

  /** Under a consistent schedule, annual tax is non-negative and earning
      more never lowers it. */
  lemma AnnualSwtMonotonic(s: Schedule, a: real, b: real)
    requires WellFormed(s)
    requires a <= b
    ensures 0.0 <= AnnualSwt(s, a) <= AnnualSwt(s, b)
  {
    if a > s.taxFree {
      AnnualSwtIsMarginal(s, a);
      AnnualSwtIsMarginal(s, b);
      MarginalTaxMonotonic(s.brackets, a - s.taxFree, b - s.taxFree, 0.0);
      Money.Round2Monotonic(0.0, MarginalTax(s.brackets, a - s.taxFree, 0.0));
      Money.Round2Monotonic(MarginalTax(s.brackets, a - s.taxFree, 0.0), MarginalTax(s.brackets, b - s.taxFree, 0.0));
      assert Money.Round2(0.0) == 0.0;
    } else if b > s.taxFree {
      AnnualSwtIsMarginal(s, b);
      MarginalTaxMonotonic(s.brackets, 0.0, b - s.taxFree, 0.0);
      Money.Round2Monotonic(0.0, MarginalTax(s.brackets, b - s.taxFree, 0.0));
      assert Money.Round2(0.0) == 0.0;
    }
  }

  /** The 2026 PNG IRC table: K20,000 tax-free, then 30% up to K12,500
      taxable, 35% to K20,000, 40% to K33,000 and 42% above; superannuation
      6.0% (employee) and 8.4% (employer). */
  const PngBrackets: seq<Bracket> := [
    Bracket(Upto(12500.0), 0.30, 0.0),
    Bracket(Upto(20000.0), 0.35, 3750.0),
    Bracket(Upto(33000.0), 0.40, 6375.0),
    Bracket(Unbounded, 0.42, 11575.0)
  ]

  const Png := Schedule(20000.0, PngBrackets, 0.06, 0.084)

  /** The precomputed cumulative column of the PNG table is consistent:
      3750 = 12500 x 0.30, 6375 = 3750 + 7500 x 0.35, 11575 = 6375 + 13000 x 0.40. */
  lemma PngWellFormed()
    ensures WellFormed(Png)
  {
    var bs := PngBrackets;
    assert WellFormedFrom(bs[3..], 33000.0, 11575.0);
    assert bs[2..][1..] == bs[3..];
    assert WellFormedFrom(bs[2..], 20000.0, 6375.0);
    assert bs[1..][1..] == bs[2..];
    assert WellFormedFrom(bs[1..], 12500.0, 3750.0);
    assert WellFormedFrom(bs, 0.0, 0.0);
  }

  /** Worked boundary values of the PNG table: nothing at the threshold,
      exactly the cumulative column at the first two bracket edges, and a
      third-bracket value. */
  lemma PngBoundaries()
    ensures AnnualSwt(Png, 20000.0) == 0.0
    ensures AnnualSwt(Png, 32500.0) == 3750.0
    ensures AnnualSwt(Png, 40000.0) == 6375.0
    ensures AnnualSwt(Png, 52000.0) == 11175.0
  {
    var bs := PngBrackets;
    LookupFirstFit(bs, 12500.0, 0);
    Money.Round2OfCents(3750.0);
    LookupFirstFit(bs, 20000.0, 1);
    Money.Round2OfCents(6375.0);
    LookupFirstFit(bs, 32000.0, 2);
    Money.Round2OfCents(11175.0);
  }
}

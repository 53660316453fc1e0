/**
 * The fee history dialog: the generated month-by-month fee records of one
 * student and the four summary cards computed from them. The clock and the
 * random draws of the generator are parameters.
 */
module FeeHistory {
  import opened Wrappers
  import opened Students
  import Seqs

  datatype Status = Paid | Pending

  datatype PaymentMethod = BankTransfer | CashPayment | Cheque | Online

  /** What the generator draws at random for record `i`: the extra fees in [0, 500), the method, and whether a late fee applies. */
  datatype Draw = Draw(additionalFees: real, payMethod: PaymentMethod, late: bool)

  /** The moment the dialog is rendered: `getMonth()` (0 for January) and `getFullYear()`. */
  datatype Clock = Clock(month: nat, year: int)

  /** One fee record. Days are the day-of-month numbers the date strings start with. */
  datatype FeeRecord = FeeRecord(
    id: nat,
    monthIndex: nat,
    year: int,
    dueDay: nat,
    paidDay: Option<nat>,
    tuitionFee: int,
    additionalFees: real,
    totalAmount: real,
    status: Status,
    paymentMethod: Option<PaymentMethod>,
    lateFee: int)

  /** The month names, indexed by `monthIndex`: they start at April. */
  function MonthName(i: nat): string
    requires i < 12
  {
    ["Apr", "May", "Jun", "Jul", "Aug", "Sep", "Oct", "Nov", "Dec", "Jan", "Feb", "Mar"][i]
  }

  /** The monthly tuition by student type. */
  function BaseFee(t: StudentType): (fee: int)
    ensures t == Hostel ==> fee == 4500
    ensures t == Bus ==> fee == 3200
    ensures t == DayScholar ==> fee == 2400
  {
    match t
    case Hostel => 4500
    case Bus => 3200
    case DayScholar => 2400
  }

  /** Record `i` of the generation loop. */
  function RecordAt(s: Student, clock: Clock, draw: nat -> Draw, i: nat): (r: FeeRecord)
    ensures r.id == i + 1
    ensures r.monthIndex < 12 && r.monthIndex == (clock.month + i) % 12
    ensures r.year == if i > clock.month then clock.year - 1 else clock.year
    ensures r.status == Paid <==> i + 1 < s.monthsEnrolled
    ensures r.paidDay.Some? <==> r.status == Paid
    ensures r.paymentMethod.Some? <==> r.status == Paid
    ensures r.totalAmount == r.tuitionFee as real + r.additionalFees
    ensures r.tuitionFee == BaseFee(s.studentType)
    ensures r.lateFee == 0 || r.lateFee == 100
  {
    var d := draw(i);
    var paid := i < s.monthsEnrolled - 1;
    var base := BaseFee(s.studentType);
    FeeRecord(
      i + 1,
      (clock.month + i) % 12,
      clock.year - (if i > clock.month then 1 else 0),
      15 + i,
      if paid then Some(10 + i) else None,
      base,
      d.additionalFees,
      base as real + d.additionalFees,
      if paid then Paid else Pending,
      if paid then Some(d.payMethod) else None,
      if d.late then 100 else 0)
  }

  /**
   * The month names are listed from April while `getMonth()` counts from
   * January, so a record generated in January is labelled "Apr".
   */
  lemma JanuaryRecordLabelledApril(s: Student, year: int, draw: nat -> Draw)
    ensures MonthName(RecordAt(s, Clock(0, year), draw, 0).monthIndex) == "Apr"
  {
  }

  /** The loop runs `min(monthsEnrolled, 12)` times, and not at all when that is not positive. */
  function RecordCount(months: int): (n: nat)
    ensures n <= 12
    ensures months <= 0 ==> n == 0
    ensures 0 < months <= 12 ==> n == months
    ensures months > 12 ==> n == 12
  {
    if months <= 0 then 0 else if months < 12 then months else 12
  }

  /** The records in generation order, `i` from 0 up to `n - 1`. */
  function Generated(s: Student, clock: Clock, draw: nat -> Draw, n: nat): (r: seq<FeeRecord>)
    ensures |r| == n
    ensures forall i :: 0 <= i < n ==> r[i] == RecordAt(s, clock, draw, i)
    decreases n
  {
    if n == 0 then [] else Generated(s, clock, draw, n - 1) + [RecordAt(s, clock, draw, n - 1)]
  }

  /** `generateFeeHistory`: nothing for no student, otherwise the generated records, newest first. */
  function FeeHistoryOf(student: Option<Student>, clock: Clock, draw: nat -> Draw): (h: seq<FeeRecord>)
    ensures student.None? ==> h == []
    ensures student.Some? ==> |h| == RecordCount(student.value.monthsEnrolled)
    ensures student.Some? ==> forall k :: 0 <= k < |h| ==> h[k] == RecordAt(student.value, clock, draw, |h| - 1 - k)
  {
    match student
    case None => []
    case Some(s) => Seqs.Reverse(Generated(s, clock, draw, RecordCount(s.monthsEnrolled)))
  }

  /** Ids count down from the length to 1: the list is in reverse generation order, and never longer than 12. */
  lemma HistoryNewestFirst(student: Option<Student>, clock: Clock, draw: nat -> Draw)
    ensures |FeeHistoryOf(student, clock, draw)| <= 12
    ensures var h := FeeHistoryOf(student, clock, draw);
      forall k :: 0 <= k < |h| ==> h[k].id == |h| - k && h[k].monthIndex < 12
  {
  }

  function PaidFilter(): FeeRecord -> bool { (r: FeeRecord) => r.status == Paid }
  function PendingFilter(): FeeRecord -> bool { (r: FeeRecord) => r.status == Pending }

  /**
   * Only the last generated record can be pending, and only when the student is
   * enrolled for at most twelve months: it is the first one shown.
   */
  lemma AtMostOnePending(s: Student, clock: Clock, draw: nat -> Draw, k: nat)
    requires k < |FeeHistoryOf(Some(s), clock, draw)|
    ensures var h := FeeHistoryOf(Some(s), clock, draw);
      h[k].status == Pending <==> k == 0 && 0 < s.monthsEnrolled <= 12
  {
  }

  function Total(r: FeeRecord): real { r.totalAmount }
  function TotalWithLate(r: FeeRecord): real { r.totalAmount + r.lateFee as real }
  function Late(r: FeeRecord): real { r.lateFee as real }

  /** The four summary figures, before `Math.round` and number formatting. */
  datatype Summary = Summary(totalPaid: real, paidCount: nat, totalPending: real, pendingCount: nat, averageMonthly: real)

  /** `totalPaid`, `totalPending`, the two counts and the "Average Monthly" card. */
  function Summarize(h: seq<FeeRecord>): (sum: Summary)
    ensures sum.paidCount + sum.pendingCount == |h|
    ensures sum.totalPaid == Seqs.SumReal(Seqs.Filter(h, PaidFilter()), TotalWithLate)
    ensures sum.totalPending == Seqs.SumReal(Seqs.Filter(h, PendingFilter()), Total)
    ensures sum.averageMonthly == MonthlyAverage(sum.totalPaid, sum.paidCount)
  {
    var paid := Seqs.Filter(h, PaidFilter());
    var pending := Seqs.Filter(h, PendingFilter());
    Seqs.FilterPartition(h, PaidFilter(), PendingFilter());
    var totalPaid := Seqs.SumReal(paid, TotalWithLate);
    Summary(totalPaid, |paid|, Seqs.SumReal(pending, Total), |pending|, MonthlyAverage(totalPaid, |paid|))
  }


  /**
   * Paid and pending together account for every record's amount plus the late
   * fees of the paid ones: a pending record's late fee is left out of the
   * "Pending Amount" card, though its table row shows it.
   */
  lemma PaidAndPendingCoverEverything(h: seq<FeeRecord>)
    ensures var sum := Summarize(h);
      sum.totalPaid + sum.totalPending ==
        Seqs.SumReal(h, Total) + Seqs.SumReal(Seqs.Filter(h, PaidFilter()), Late)
  {
    var paid := Seqs.Filter(h, PaidFilter());
    Seqs.SumRealAdd(paid, Total, Late, TotalWithLate);
    Seqs.SumRealSplit(h, PaidFilter(), PendingFilter(), Total);
  }

  /** "Average Monthly": the paid total over the number of payments, or over 1 when there are none. */
  function MonthlyAverage(totalPaid: real, paidCount: nat): (avg: real)
    ensures paidCount == 0 ==> avg == totalPaid
    ensures paidCount > 0 ==> avg * paidCount as real == totalPaid
  {
    var divisor := if paidCount > 1 then paidCount else 1;
    DivideThenMultiply(totalPaid, divisor as real);
    totalPaid / divisor as real
  }

  /**
   * A student enrolled for one to twelve months has exactly one pending
   * payment; one enrolled longer has none, so the paid count is the record
   * count less that one.
   */
  lemma PendingCountOfStudent(s: Student, clock: Clock, draw: nat -> Draw)
    ensures var sum := Summarize(FeeHistoryOf(Some(s), clock, draw));
      && sum.pendingCount == (if 0 < s.monthsEnrolled <= 12 then 1 else 0)
      && sum.paidCount == RecordCount(s.monthsEnrolled) - sum.pendingCount
  {
    var h := FeeHistoryOf(Some(s), clock, draw);
    if |h| > 0 {
      var rest := h[1..];
      forall i | 0 <= i < |rest|
        ensures !PendingFilter()(rest[i])
      {
        AtMostOnePending(s, clock, draw, i + 1);
      }
      Seqs.FilterKeepsNone(rest, PendingFilter());
      assert h == [h[0]] + rest;
      Seqs.FilterConcat([h[0]], rest, PendingFilter());
      assert [h[0]][..0] == [];
      AtMostOnePending(s, clock, draw, 0);
    }
  }

  /** With no student enrolled for a month or more there is nothing to pay: every figure is 0. */
  lemma EmptyHistorySummary(s: Student, clock: Clock, draw: nat -> Draw)
    requires s.monthsEnrolled <= 0
    ensures Summarize(FeeHistoryOf(Some(s), clock, draw)) == Summary(0.0, 0, 0.0, 0, 0.0)
  {
  }

  // ---------------------------------------------------------------------------
  // The "Payment Status" card
  // ---------------------------------------------------------------------------

  /**
   * The percentage as written: the paid count over the history length. For an
   * empty history this is 0 / 0, which is NaN in JavaScript (`None` here).
   */
  function PaidPercentageAsWritten(h: seq<FeeRecord>): (pct: Option<real>)
    ensures pct.None? <==> |h| == 0
  {
    if |h| == 0 then None
    else Some(|Seqs.Filter(h, PaidFilter())| as real / |h| as real * 100.0)
  }

  /** A student with no months enrolled opens a dialog whose "Payment Status" card reads NaN%. */
  lemma PaidPercentageNaNWhenNotEnrolled(s: Student, clock: Clock, draw: nat -> Draw)
    requires s.monthsEnrolled == 0
    ensures PaidPercentageAsWritten(FeeHistoryOf(Some(s), clock, draw)).None?
  {
  }

  /** The same ratio guarded like the "Average Monthly" card, dividing by at least 1. */
  function PaidPercentage(h: seq<FeeRecord>): (pct: real)
    ensures 0.0 <= pct <= 100.0
    ensures |h| == 0 ==> pct == 0.0
    ensures |h| > 0 ==> PaidPercentageAsWritten(h) == Some(pct)
  {
    var paid := |Seqs.Filter(h, PaidFilter())|;
    var pct := Percentage(paid, |h|);
    assert |h| > 0 ==> pct == paid as real / |h| as real * 100.0;
    pct
  }

  /** `part` as a percentage of `whole`, dividing by 1 when `whole` is 0. */
  function Percentage(part: nat, whole: nat): (pct: real)
    requires part <= whole
    ensures 0.0 <= pct <= 100.0
    ensures whole == 0 ==> pct == 0.0
    ensures whole > 0 ==> pct * whole as real == part as real * 100.0
    ensures whole > 0 ==> pct == part as real / whole as real * 100.0
  {
    var divisor := if whole > 1 then whole else 1;
    PercentageWithinRange(part as real, divisor as real);
    DivideThenMultiply(part as real / divisor as real * 100.0, divisor as real);
    part as real / divisor as real * 100.0
  }

  lemma DivideThenMultiply(x: real, d: real)
    requires d > 0.0
    ensures x / d * d == x
  {
  }

  lemma PercentageWithinRange(part: real, whole: real)
    requires 0.0 <= part <= whole && whole > 0.0
    ensures 0.0 <= part / whole * 100.0 <= 100.0
  {
    assert part / whole <= 1.0;
  }
}

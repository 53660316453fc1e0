/**
 * The entry ledger of the "add journal voucher" sheet: an ordered list of entry
 * rows, each carrying a debit, a credit and a derived balance, together with the
 * totals the sheet shows under the table.
 */
module JournalVoucherForm {
  import opened Wrappers
  import Text
  import Seqs

  datatype EntryRow = EntryRow(
    chartOfAccount: string,
    debit: real,
    credit: real,
    balance: real,
    description: string)

  /** The edits the row inputs issue through `handleEntryRowChange`. */
  datatype Edit =
    | SetAccount(account: string)
    | SetDebit(debit: real)
    | SetCredit(credit: real)
    | SetDescription(text: string)

  datatype VoucherDetails = VoucherDetails(
    voucherNo: string,
    voucherDate: string,
    fiscalYear: string,
    voucherName: string,
    billDate: string,
    billNo: string,
    paymentMethod: string,
    remarks: string)

  datatype Form = Form(details: VoucherDetails, rows: seq<EntryRow>, open: bool)

  datatype Totals = Totals(totalDebit: real, totalCredit: real, difference: real, balanced: bool)

  /** What a submit leaves behind: the sheet's state and the voucher number handed to `onSuccess`. */
  datatype SubmitOutcome = SubmitOutcome(form: Form, reported: Option<string>)

  /** The row `addEntryRow` appends. */
  const BlankRow := EntryRow("", 0.0, 0.0, 0.0, "")

  const InitialDetails := VoucherDetails("11121", "2023-11-12", "2081/82", "Cash", "2023-11-12", "", "Cash", "")

  /** The three rows the sheet opens with. */
  function SeedRows(): seq<EntryRow> {
    [ EntryRow("C0001 Accounts", 100.0, 0.0, 100.0, ""),
      EntryRow("C0032 Fees", 0.0, 100.0, -100.0, ""),
      BlankRow ]
  }

  /** A row whose displayed balance is its debit minus its credit. */
  predicate Consistent(row: EntryRow) {
    row.balance == row.debit - row.credit
  }

  predicate AllConsistent(rows: seq<EntryRow>) {
    forall i :: 0 <= i < |rows| ==> Consistent(rows[i])
  }

  // ---------------------------------------------------------------------------
  // handleEntryRowChange
  // ---------------------------------------------------------------------------

  /** One field of one row changes; a debit or credit change recomputes the balance from the new row. */
  function ApplyEdit(row: EntryRow, e: Edit): (r: EntryRow)
    ensures (e.SetDebit? || e.SetCredit?) ==> Consistent(r)
    ensures (e.SetAccount? || e.SetDescription?) ==> r.balance == row.balance
    ensures r.debit == (if e.SetDebit? then e.debit else row.debit)
    ensures r.credit == (if e.SetCredit? then e.credit else row.credit)
    ensures r.chartOfAccount == (if e.SetAccount? then e.account else row.chartOfAccount)
    ensures r.description == (if e.SetDescription? then e.text else row.description)
  {
    match e
    case SetAccount(a) => row.(chartOfAccount := a)
    case SetDescription(d) => row.(description := d)
    case SetDebit(v) => row.(debit := v, balance := v - row.credit)
    case SetCredit(v) => row.(credit := v, balance := row.debit - v)
  }

  /**
   * `handleEntryRowChange(index, field, value)`. The handler is only ever invoked
   * from the row that is being rendered, so `index` is in range.
   */
  function UpdateRow(rows: seq<EntryRow>, index: nat, e: Edit): (r: seq<EntryRow>)
    requires index < |rows|
    ensures |r| == |rows|
    ensures r[index] == ApplyEdit(rows[index], e)
    ensures forall j :: 0 <= j < |rows| && j != index ==> r[j] == rows[j]
  {
    rows[index := ApplyEdit(rows[index], e)]
  }

  /** The debit and credit inputs pass `parseFloat(text) || 0`. */
  function DebitInput(text: string): (e: Edit)
    ensures e.SetDebit?
    ensures Text.ParseFloat(text).None? ==> e.debit == 0.0
    ensures Text.ParseFloat(text).Some? ==> e.debit == Text.ParseFloat(text).value
  {
    SetDebit(Text.NumberOrZero(text))
  }

  function CreditInput(text: string): (e: Edit)
    ensures e.SetCredit?
    ensures Text.ParseFloat(text).None? ==> e.credit == 0.0
    ensures Text.ParseFloat(text).Some? ==> e.credit == Text.ParseFloat(text).value
  {
    SetCredit(Text.NumberOrZero(text))
  }

  // ---------------------------------------------------------------------------
  // addEntryRow
  // ---------------------------------------------------------------------------

  function AddEntryRow(rows: seq<EntryRow>): (r: seq<EntryRow>)
    ensures |r| == |rows| + 1
    ensures r[..|rows|] == rows
    ensures r[|rows|] == EntryRow("", 0.0, 0.0, 0.0, "")
  {
    rows + [BlankRow]
  }

  // ---------------------------------------------------------------------------
  // Totals
  // ---------------------------------------------------------------------------

  function Debit(row: EntryRow): real { row.debit }
  function Credit(row: EntryRow): real { row.credit }
  function Balance(row: EntryRow): real { row.balance }

  /** `totalDebit`, `totalCredit` and `difference`; the sheet paints the difference green when it is zero. */
  function ComputeTotals(rows: seq<EntryRow>): (t: Totals)
    ensures t.totalDebit == Seqs.SumReal(rows, Debit) && t.totalCredit == Seqs.SumReal(rows, Credit)
    ensures t.difference == t.totalDebit - t.totalCredit
    ensures t.balanced <==> t.totalDebit == t.totalCredit
    ensures rows == [] ==> t == Totals(0.0, 0.0, 0.0, true)
  {
    var d := Seqs.SumReal(rows, Debit);
    var c := Seqs.SumReal(rows, Credit);
    Totals(d, c, d - c, d - c == 0.0)
  }

  lemma SumOfSingleton(x: EntryRow, f: EntryRow -> real)
    ensures Seqs.SumReal([x], f) == f(x)
  {
    assert [x][..0] == [];
  }

  /** Replacing one row changes a column sum by exactly that row's change. */
  lemma SumOfUpdate(rows: seq<EntryRow>, i: nat, x: EntryRow, f: EntryRow -> real)
    requires i < |rows|
    ensures Seqs.SumReal(rows[i := x], f) == Seqs.SumReal(rows, f) - f(rows[i]) + f(x)
  {
    var pre, post := rows[..i], rows[i + 1..];
    assert rows == pre + [rows[i]] + post;
    assert rows[i := x] == pre + [x] + post;
    Seqs.SumRealConcat(pre + [rows[i]], post, f);
    Seqs.SumRealConcat(pre, [rows[i]], f);
    Seqs.SumRealConcat(pre + [x], post, f);
    Seqs.SumRealConcat(pre, [x], f);
    SumOfSingleton(x, f);
    SumOfSingleton(rows[i], f);
  }

  /** When every row is consistent, the balances add up to the shown difference. */
  lemma {:induction false} SumOfBalancesIsDifference(rows: seq<EntryRow>)
    requires AllConsistent(rows)
    ensures Seqs.SumReal(rows, Balance) == ComputeTotals(rows).difference
    decreases |rows|
  {
    if |rows| > 0 {
      SumOfBalancesIsDifference(rows[..|rows| - 1]);
    }
  }

  /** Appending the blank row leaves all three totals where they were. */
  lemma AddEntryRowKeepsTotals(rows: seq<EntryRow>)
    ensures ComputeTotals(AddEntryRow(rows)) == ComputeTotals(rows)
  {
    var r := AddEntryRow(rows);
    assert r[..|r| - 1] == rows;
  }

  /** Setting row i's debit to v moves the total debit, and the difference, by v minus the old debit. */
  lemma SetDebitMovesDifference(rows: seq<EntryRow>, i: nat, v: real)
    requires i < |rows|
    ensures ComputeTotals(UpdateRow(rows, i, SetDebit(v))).totalDebit == ComputeTotals(rows).totalDebit - rows[i].debit + v
    ensures ComputeTotals(UpdateRow(rows, i, SetDebit(v))).totalCredit == ComputeTotals(rows).totalCredit
    ensures ComputeTotals(UpdateRow(rows, i, SetDebit(v))).difference == ComputeTotals(rows).difference - rows[i].debit + v
  {
    var x := ApplyEdit(rows[i], SetDebit(v));
    SumOfUpdate(rows, i, x, Debit);
    SumOfUpdate(rows, i, x, Credit);
  }

  // ---------------------------------------------------------------------------
  // The consistency invariant
  // ---------------------------------------------------------------------------

  lemma SeedRowsConsistentAndBalanced()
    ensures AllConsistent(SeedRows())
    ensures ComputeTotals(SeedRows()) == Totals(100.0, 100.0, 0.0, true)
  {
    var s := SeedRows();
    assert s == [s[0]] + [s[1]] + [s[2]];
    Seqs.SumRealConcat([s[0]] + [s[1]], [s[2]], Debit);
    Seqs.SumRealConcat([s[0]], [s[1]], Debit);
    Seqs.SumRealConcat([s[0]] + [s[1]], [s[2]], Credit);
    Seqs.SumRealConcat([s[0]], [s[1]], Credit);
    SumOfSingleton(s[0], Debit);
    SumOfSingleton(s[1], Debit);
    SumOfSingleton(s[2], Debit);
    SumOfSingleton(s[0], Credit);
    SumOfSingleton(s[1], Credit);
    SumOfSingleton(s[2], Credit);
  }

  lemma UpdateRowPreservesConsistency(rows: seq<EntryRow>, i: nat, e: Edit)
    requires i < |rows| && AllConsistent(rows)
    ensures AllConsistent(UpdateRow(rows, i, e))
  {
  }

  lemma AddEntryRowPreservesConsistency(rows: seq<EntryRow>)
    requires AllConsistent(rows)
    ensures AllConsistent(AddEntryRow(rows))
  {
  }

  // ---------------------------------------------------------------------------
  // The sheet as a state machine
  // ---------------------------------------------------------------------------

  datatype Event =
    | EditRow(index: nat, edit: Edit)
    | AddRow
    | Submit(hasOnSuccess: bool)
    | Cancel

  const InitialForm := Form(InitialDetails, SeedRows(), true)

  /**
   * `handleSubmit`: logs, closes the sheet and reports the voucher number to
   * `onSuccess` when one is given. Nothing is checked, and the rows are not reset.
   */
  function SubmitForm(form: Form, hasOnSuccess: bool): (o: SubmitOutcome)
    ensures !o.form.open
    ensures o.form.rows == form.rows && o.form.details == form.details
    ensures o.reported.Some? <==> hasOnSuccess
    ensures o.reported.Some? ==> o.reported.value == form.details.voucherNo
  {
    SubmitOutcome(form.(open := false), if hasOnSuccess then Some(form.details.voucherNo) else None)
  }

  /** One user event. Row edits aimed outside the table are not issued by the sheet and change nothing. */
  function Step(form: Form, ev: Event): Form {
    match ev
    case EditRow(i, e) => if i < |form.rows| then form.(rows := UpdateRow(form.rows, i, e)) else form
    case AddRow => form.(rows := AddEntryRow(form.rows))
    case Submit(h) => SubmitForm(form, h).form
    case Cancel => form.(open := false)
  }

  function Run(form: Form, evs: seq<Event>): Form
    decreases |evs|
  {
    if |evs| == 0 then form else Run(Step(form, evs[0]), evs[1..])
  }

  /** Every reachable sheet shows balance = debit - credit on every row. */
  lemma {:induction false} RunPreservesConsistency(form: Form, evs: seq<Event>)
    requires AllConsistent(form.rows)
    ensures AllConsistent(Run(form, evs).rows)
    decreases |evs|
  {
    if |evs| > 0 {
      var next := Step(form, evs[0]);
      match evs[0] {
        case EditRow(i, e) =>
          if i < |form.rows| { UpdateRowPreservesConsistency(form.rows, i, e); }
        case AddRow => AddEntryRowPreservesConsistency(form.rows);
        case Submit(_) =>
        case Cancel =>
      }
      RunPreservesConsistency(next, evs[1..]);
    }
  }

  /** Hence, from the initial sheet, the balances always add up to the shown difference. */
  lemma ReachableBalancesSumToDifference(evs: seq<Event>)
    ensures var rows := Run(InitialForm, evs).rows;
      Seqs.SumReal(rows, Balance) == ComputeTotals(rows).difference
  {
    SeedRowsConsistentAndBalanced();
    RunPreservesConsistency(InitialForm, evs);
    SumOfBalancesIsDifference(Run(InitialForm, evs).rows);
  }

  /** A submit is accepted whatever the difference: an unbalanced sheet closes just the same. */
  lemma UnbalancedSubmitCloses(rows: seq<EntryRow>)
    requires rows == UpdateRow(SeedRows(), 0, SetDebit(60.0))
    ensures ComputeTotals(rows).difference == -40.0 && !ComputeTotals(rows).balanced
    ensures var o := SubmitForm(Form(InitialDetails, rows, true), true);
      !o.form.open && o.reported == Some("11121")
  {
    SeedRowsConsistentAndBalanced();
    SetDebitMovesDifference(SeedRows(), 0, 60.0);
  }
}

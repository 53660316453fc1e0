/**
 * The "create a new voucher" sheet for payment and receipt vouchers: free-text
 * voucher details, an editable list of transaction rows, and a submit that
 * checks two required fields and then resets everything.
 */
module PaymentVoucherForm {
  import opened Wrappers

  /** One transaction row. The amount is the raw text of its input and is never parsed. */
  datatype Transaction = Transaction(account: string, amount: string)

  datatype Details = Details(
    voucherType: string,
    partyName: string,
    voucherDate: string,
    voucherName: string,
    account: string,
    billDate: string,
    billNo: string,
    remarks: string)

  /** The detail inputs, by the `id` each input carries. */
  datatype DetailField = VoucherType | PartyName | VoucherDate | VoucherName | Account | BillDate | BillNo | Remarks

  datatype TransactionField = AccountField | AmountField

  datatype Form = Form(details: Details, transactions: seq<Transaction>, open: bool)

  /** What a submit produced: the new form, the number passed to `onSuccess`, and whether the alert was raised. */
  datatype SubmitOutcome = SubmitOutcome(form: Form, reported: Option<string>, alerted: bool)

  const InitialDetails := Details("Payment", "", "11/12/2023", "Cash", "Misc. Income", "11/12/2023", "", "")

  const BlankTransaction := Transaction("", "")

  function InitialTransactions(): seq<Transaction> {
    [Transaction("Bank", "100"), Transaction("Cash", "2,000"), BlankTransaction]
  }

  /** The number every accepted voucher is reported under. */
  const ReportedNumber := "PV-0124"

  /** `handleVoucherDetailChange` and `handleSelectChange`: one detail takes the new text. */
  function SetDetail(d: Details, f: DetailField, v: string): (r: Details)
    ensures Get(r, f) == v
    ensures forall g :: g != f ==> Get(r, g) == Get(d, g)
  {
    match f
    case VoucherType => d.(voucherType := v)
    case PartyName => d.(partyName := v)
    case VoucherDate => d.(voucherDate := v)
    case VoucherName => d.(voucherName := v)
    case Account => d.(account := v)
    case BillDate => d.(billDate := v)
    case BillNo => d.(billNo := v)
    case Remarks => d.(remarks := v)
  }

  function Get(d: Details, f: DetailField): string {
    match f
    case VoucherType => d.voucherType
    case PartyName => d.partyName
    case VoucherDate => d.voucherDate
    case VoucherName => d.voucherName
    case Account => d.account
    case BillDate => d.billDate
    case BillNo => d.billNo
    case Remarks => d.remarks
  }

  /** `handleTransactionChange(index, field, value)`: only that field of that row changes, to the text as typed. */
  function ChangeTransaction(ts: seq<Transaction>, i: nat, f: TransactionField, v: string): (r: seq<Transaction>)
    requires i < |ts|
    ensures |r| == |ts|
    ensures forall j :: 0 <= j < |ts| && j != i ==> r[j] == ts[j]
    ensures f == AccountField ==> r[i] == Transaction(v, ts[i].amount)
    ensures f == AmountField ==> r[i] == Transaction(ts[i].account, v)
  {
    var t := ts[i];
    ts[i := match f case AccountField => t.(account := v) case AmountField => t.(amount := v)]
  }

  /** `addTransaction`: one blank row at the end, the others kept in order. */
  function AddTransaction(ts: seq<Transaction>): (r: seq<Transaction>)
    ensures |r| == |ts| + 1
    ensures r[..|ts|] == ts
    ensures r[|ts|] == BlankTransaction
  {
    ts + [BlankTransaction]
  }

  /** The row that carries the "+ Add" button: the last one, if there is any. */
  function AddButtonRow(ts: seq<Transaction>): (r: Option<nat>)
    ensures r.Some? <==> |ts| > 0
    ensures r.Some? ==> r.value < |ts| && r.value + 1 == |ts|
  {
    if |ts| == 0 then None else Some(|ts| - 1)
  }

  /** The two required fields are both non-empty strings. Bill number and dates are not checked. */
  predicate Accepts(d: Details) {
    d.partyName != "" && d.voucherName != ""
  }

  /**
   * `handleSubmit`: with an empty party or voucher name it only raises the
   * alert; otherwise it reports "PV-0124" (when `onSuccess` is given), closes
   * the sheet and resets every field and row to the initial values.
   */
  function SubmitForm(form: Form, hasOnSuccess: bool): (o: SubmitOutcome)
    ensures o.alerted <==> form.details.partyName == "" || form.details.voucherName == ""
    ensures o.alerted ==> o.form == form && o.reported.None?
    ensures !o.alerted ==> o.form == Form(InitialDetails, InitialTransactions(), false)
    ensures !o.alerted ==> (o.reported.Some? <==> hasOnSuccess)
    ensures o.reported.Some? ==> o.reported.value == ReportedNumber
  {
    if !Accepts(form.details) then SubmitOutcome(form, None, true)
    else SubmitOutcome(Form(InitialDetails, InitialTransactions(), false), if hasOnSuccess then Some(ReportedNumber) else None, false)
  }

  /** The Cancel button: closes the sheet and keeps whatever was typed. */
  function CancelForm(form: Form): (r: Form)
    ensures !r.open
    ensures r.details == form.details && r.transactions == form.transactions
  {
    form.(open := false)
  }

  datatype Event =
    | EditDetail(field: DetailField, value: string)
    | EditTransaction(index: nat, tfield: TransactionField, text: string)
    | AddRow
    | Submit(hasOnSuccess: bool)
    | Cancel
    | Reopen

  /** One user event. Transaction edits aimed past the last row are not issued by the sheet and change nothing. */
  function Step(form: Form, ev: Event): Form {
    match ev
    case EditDetail(f, v) => form.(details := SetDetail(form.details, f, v))
    case EditTransaction(i, f, v) =>
      if i < |form.transactions| then form.(transactions := ChangeTransaction(form.transactions, i, f, v)) else form
    case AddRow => form.(transactions := AddTransaction(form.transactions))
    case Submit(h) => SubmitForm(form, h).form
    case Cancel => CancelForm(form)
    case Reopen => form.(open := true)
  }

  function Run(form: Form, evs: seq<Event>): Form
    decreases |evs|
  {
    if |evs| == 0 then form else Run(Step(form, evs[0]), evs[1..])
  }

  const InitialForm := Form(InitialDetails, InitialTransactions(), true)

  /** The sheet opens rejecting a submit: its party name starts empty. */
  lemma InitialFormIsRejected(h: bool)
    ensures SubmitForm(InitialForm, h).alerted
    ensures SubmitForm(InitialForm, h).form == InitialForm
  {
  }

  /** An accepted submit leaves a form that the very next submit rejects, since the reset empties the party name. */
  lemma AcceptedThenRejected(form: Form, h1: bool, h2: bool)
    requires Accepts(form.details)
    ensures var o := SubmitForm(SubmitForm(form, h1).form, h2);
      o.alerted && o.reported.None?
  {
  }

  /** Cancelling and reopening gives back the same details and rows. */
  lemma CancelReopenKeepsInput(form: Form)
    requires form.open
    ensures Step(Step(form, Cancel), Reopen) == form
  {
  }

  /** Rows are only ever appended or reset to the three initial ones, so every reachable form has at least three. */
  lemma {:induction false} RunKeepsThreeRows(form: Form, evs: seq<Event>)
    requires |form.transactions| >= 3
    ensures |Run(form, evs).transactions| >= 3
    decreases |evs|
  {
    if |evs| > 0 {
      RunKeepsThreeRows(Step(form, evs[0]), evs[1..]);
    }
  }

  /**
   * Whatever was typed, the voucher reported is always "PV-0124": two
   * different accepted forms report the same number.
   */
  lemma ReportedNumberIgnoresInput(a: Form, b: Form)
    requires Accepts(a.details) && Accepts(b.details)
    ensures SubmitForm(a, true).reported == SubmitForm(b, true).reported == Some(ReportedNumber)
    ensures SubmitForm(a, true).form == SubmitForm(b, true).form
  {
  }
}

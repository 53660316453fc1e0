/**
 * The journal voucher and payment voucher tables: the delete flow (pending
 * voucher, confirmation dialog, success toast) that both share, the journal
 * table's detail view, and the payment table's print and edit buttons.
 */
module VoucherTables {
  import opened Wrappers
  import Seqs

  datatype JournalVoucher = JournalVoucher(
    id: string,
    voucherNo: string,
    voucherDate: string,
    fiscalYear: string,
    voucherName: string,
    entrySummary: string,
    amount: real,
    enteredBy: string,
    paymentMethod: string,
    billNo: string,
    billDate: string,
    remarks: string)

  datatype PaymentVoucher = PaymentVoucher(
    id: string,
    voucherNo: string,
    partyName: string,
    amount: real,
    payMethod: string,
    account: string,
    remarks: string,
    voucherDate: string,
    voucherType: string,
    enteredBy: string,
    fiscalYear: string,
    billNo: Option<string>,
    billDate: Option<string>)

  /**
   * The delete flow over vouchers of type `V`: the list, the key waiting for
   * confirmation, whether the confirmation dialog is open and whether the
   * success toast is showing.
   */
  datatype Flow<V> = Flow(vouchers: seq<V>, pending: Option<string>, modalOpen: bool, toast: bool)

  /** A pending key counts only when it is a non-empty string: `null` and "" are both falsy. */
  predicate Truthy(k: Option<string>) {
    k.Some? && k.value != ""
  }

  /** `handleDeleteClick`: remember the key and open the dialog; the list is untouched. */
  function DeleteClick<V>(f: Flow<V>, key: string): (r: Flow<V>)
    ensures r.vouchers == f.vouchers && r.toast == f.toast
    ensures r.pending == Some(key) && r.modalOpen
  {
    f.(pending := Some(key), modalOpen := true)
  }

  function KeyIsNot<V>(keyOf: V -> string, key: string): V -> bool {
    (v: V) => keyOf(v) != key
  }

  /**
   * `handleConfirmDelete`: with a truthy pending key, drop every voucher with
   * that key, show the toast, forget the key and close the dialog; otherwise
   * do nothing.
   */
  function ConfirmDelete<V>(f: Flow<V>, keyOf: V -> string): (r: Flow<V>)
    ensures !Truthy(f.pending) ==> r == f
    ensures Truthy(f.pending) ==> r.pending.None? && !r.modalOpen && r.toast
    ensures Truthy(f.pending) ==> forall i :: 0 <= i < |r.vouchers| ==>
      r.vouchers[i] in f.vouchers && keyOf(r.vouchers[i]) != f.pending.value
    ensures Truthy(f.pending) ==> forall i :: 0 <= i < |f.vouchers| && keyOf(f.vouchers[i]) != f.pending.value ==>
      f.vouchers[i] in r.vouchers
  {
    if Truthy(f.pending) then
      Flow(Seqs.Filter(f.vouchers, KeyIsNot(keyOf, f.pending.value)), None, false, true)
    else
      f
  }

  /** The dialog's `onOpenChange`: only the dialog flag changes; the pending key is kept. */
  function SetModalOpen<V>(f: Flow<V>, open: bool): (r: Flow<V>)
    ensures r.modalOpen == open
    ensures r.vouchers == f.vouchers && r.pending == f.pending && r.toast == f.toast
  {
    f.(modalOpen := open)
  }

  /** The toast's `onClose`. */
  function CloseToast<V>(f: Flow<V>): (r: Flow<V>)
    ensures !r.toast
    ensures r.vouchers == f.vouchers && r.pending == f.pending && r.modalOpen == f.modalOpen
  {
    f.(toast := false)
  }

  /** A second confirmation finds nothing pending and changes nothing. */
  lemma ConfirmTwiceIsConfirmOnce<V>(f: Flow<V>, keyOf: V -> string)
    ensures ConfirmDelete(ConfirmDelete(f, keyOf), keyOf) == ConfirmDelete(f, keyOf)
  {
  }

  function KeyIs<V>(keyOf: V -> string, key: string): V -> bool {
    (v: V) => keyOf(v) == key
  }

  /**
   * Clicking delete on a voucher and confirming removes exactly the vouchers
   * sharing its key: the list shrinks by their number. With an empty key the
   * confirmation is ignored and the dialog stays open.
   */
  lemma ClickThenConfirm<V>(f: Flow<V>, keyOf: V -> string, key: string)
    ensures var r := ConfirmDelete(DeleteClick(f, key), keyOf);
      key != "" ==> |r.vouchers| == |f.vouchers| - |Seqs.Filter(f.vouchers, KeyIs(keyOf, key))|
    ensures key == "" ==> ConfirmDelete(DeleteClick(f, key), keyOf) == DeleteClick(f, key)
  {
    Seqs.FilterPartition(f.vouchers, KeyIs(keyOf, key), KeyIsNot(keyOf, key));
  }

  /** Dismissing the dialog and reopening it keeps the same voucher pending, so a later confirm still deletes it. */
  lemma DismissKeepsPending<V>(f: Flow<V>, keyOf: V -> string, key: string)
    requires key != ""
    ensures var g := SetModalOpen(SetModalOpen(DeleteClick(f, key), false), true);
      g.pending == Some(key) && ConfirmDelete(g, keyOf).vouchers == Seqs.Filter(f.vouchers, KeyIsNot(keyOf, key))
  {
  }

  // ---------------------------------------------------------------------------
  // Journal voucher table
  // ---------------------------------------------------------------------------

  function VoucherNo(v: JournalVoucher): string { v.voucherNo }

  /** The journal table keys its deletes by voucher number and also remembers the voucher being viewed. */
  datatype JournalTable = JournalTable(flow: Flow<JournalVoucher>, selected: Option<string>)

  datatype JournalEvent =
    | View(voucherNo: string)
    | Back
    | Delete(voucherNo: string)
    | Confirm
    | DialogOpenChange(open: bool)
    | ToastClosed

  /** The detail view replaces the table exactly when the selected voucher number is truthy. */
  predicate ShowsDetail(t: JournalTable) {
    Truthy(t.selected)
  }

  function JournalStep(t: JournalTable, ev: JournalEvent): (r: JournalTable)
    ensures ev.View? ==> r.selected == Some(ev.voucherNo) && r.flow == t.flow
    ensures ev.Back? ==> r.selected.None? && !ShowsDetail(r) && r.flow == t.flow
    ensures !ev.View? && !ev.Back? ==> r.selected == t.selected
    ensures !ev.Confirm? ==> r.flow.vouchers == t.flow.vouchers
  {
    match ev
    case View(no) => t.(selected := Some(no))
    case Back => t.(selected := None)
    case Delete(no) => t.(flow := DeleteClick(t.flow, no))
    case Confirm => t.(flow := ConfirmDelete(t.flow, VoucherNo))
    case DialogOpenChange(open) => t.(flow := SetModalOpen(t.flow, open))
    case ToastClosed => t.(flow := CloseToast(t.flow))
  }

  /** Viewing a voucher and going back returns to the table with nothing else changed. */
  lemma ViewThenBack(t: JournalTable, no: string)
    requires t.selected.None?
    ensures ShowsDetail(JournalStep(t, View(no))) <==> no != ""
    ensures JournalStep(JournalStep(t, View(no)), Back) == t
  {
  }

  // ---------------------------------------------------------------------------
  // Payment voucher table
  // ---------------------------------------------------------------------------

  function PaymentId(v: PaymentVoucher): string { v.id }

  datatype PaymentEvent =
    | Print(id: string)
    | Edit(id: string)
    | DeleteVoucher(id: string)
    | ConfirmVoucher
    | DialogClosed
    | ToastHidden

  /** The payment table keys its deletes by id; print and edit only log. */
  function PaymentStep(f: Flow<PaymentVoucher>, ev: PaymentEvent): (r: Flow<PaymentVoucher>)
    ensures !ev.ConfirmVoucher? ==> r.vouchers == f.vouchers
    ensures ev.Print? || ev.Edit? ==> r == f
  {
    match ev
    case Print(_) => f
    case Edit(_) => f
    case DeleteVoucher(id) => DeleteClick(f, id)
    case ConfirmVoucher => ConfirmDelete(f, PaymentId)
    case DialogClosed => SetModalOpen(f, false)
    case ToastHidden => CloseToast(f)
  }

  function PaymentRun(f: Flow<PaymentVoucher>, evs: seq<PaymentEvent>): Flow<PaymentVoucher>
    decreases |evs|
  {
    if |evs| == 0 then f else PaymentRun(PaymentStep(f, evs[0]), evs[1..])
  }

  /** Whatever happens on the payment table, the list only ever loses vouchers: each one left was there at the start. */
  lemma {:induction false} PaymentRunOnlyRemoves(f: Flow<PaymentVoucher>, evs: seq<PaymentEvent>)
    ensures |PaymentRun(f, evs).vouchers| <= |f.vouchers|
    ensures forall i :: 0 <= i < |PaymentRun(f, evs).vouchers| ==> PaymentRun(f, evs).vouchers[i] in f.vouchers
    decreases |evs|
  {
    if |evs| > 0 {
      PaymentRunOnlyRemoves(PaymentStep(f, evs[0]), evs[1..]);
    }
  }
}

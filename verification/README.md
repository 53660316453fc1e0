# quickAccounting admin: a Dafny model of its handler logic

quickAccounting is a React admin interface for a school's accounts. It has a
student module, journal and payment vouchers, and hierarchical financial
reports, all running on mock data. Most of it is presentation. The logic that
can be stated sits in component handlers and derived values, and this project
models each such handler as a pure function over immutable records. It then
proves what the handlers promise:

- **Journal voucher entry sheet** (`JournalVoucherForm`): the entry rows with
  their derived balance, the column totals, the difference, and a submit that
  never blocks. Every reachable sheet keeps `balance = debit - credit` on every
  row, so the balances always add up to the shown difference.
- **Student roster pages** (`StudentRoster`): the five-way filter, the
  statistics cards, add / update / delete, and the bulk action handler. The
  enhanced page runs as a state machine in which the bulk selection provably
  stays empty.
- **Student form** (`StudentForm`): the dialog and the sheet share it. It covers
  the five validation rules, field edits that blank one message, submit, close,
  and loading an edited student.
- **Payment voucher sheet** (`PaymentVoucherForm`): detail and transaction
  edits, a submit that checks two required fields and resets the sheet, and
  cancel.
- **Academic progress tracker** (`AcademicProgressTracker`, via
  `AcademicProgress` and `Sorting`): the generated averages, the class/section
  filter, the performance category, the class average, the top-five card, and
  the needs-attention list. The model includes the in-place sort that reorders
  the filtered array.
- **Fee history dialog** (`FeeHistory`): the generated month-by-month records,
  newest first, and the four summary cards.
- **Bulk actions dialog** (`BulkActions`): single-choice action boxes, email
  options, the request handed to the page, the fee total, and the per-type
  badges.
- **Voucher tables** (`VoucherTables`): the shared delete flow (pending key,
  confirmation dialog, toast), the journal table's detail view, and the payment
  table's print and edit buttons.
- **Journal voucher documents** (`JournalVoucherDocuments`): the MIME type
  label, drop and file-picker uploads, removal, and the drag highlight.
- **Report trees** (`ReportTree`): the trial balance, ledger and balance sheet
  share one expansion map keyed by id, a toggle, amount formatting, and a
  recursive rendering. The trial balance opens any expanded row. The ledger and
  the balance sheet also require the row to be marked expandable.
- **Chart-of-accounts tree** (`AccountTree`): each node has its own expanded
  flag, children render one level deeper, parents and leaves offer different
  actions, and a collapsed parent shows "+ Add Category". Collapsing a node
  unmounts its subtree, so the flags below it are forgotten.

`Wrappers` (Option), `Text` (ASCII trim, case mapping, substring search,
`split`, `parseFloat`), `Seqs` (filter, sums, reverse) and `Sorting` (a stable
insertion sort) are the shared vocabulary. `Students` holds the student record.

Wherever the component reads the clock, draws random numbers or makes ids from
`Date.now()`, those values are parameters of the model.

## Model

| member | source | states |
|---|---|---|
| JournalVoucherForm.ApplyEdit | src/components/journal-voucher/AddJournalVoucherModal.tsx:65-80 | A debit or credit edit leaves the row with balance = debit - credit. An account or description edit changes only that field and keeps the old balance. |
| JournalVoucherForm.UpdateRow | src/components/journal-voucher/AddJournalVoucherModal.tsx:70-79 | An edit at index i keeps the row count. It rewrites row i through ApplyEdit and leaves every other row equal. |
| JournalVoucherForm.DebitInput | src/components/journal-voucher/AddJournalVoucherModal.tsx:275 | Debit text that parseFloat cannot read is stored as 0. Otherwise the parsed number is stored. |
| JournalVoucherForm.CreditInput | src/components/journal-voucher/AddJournalVoucherModal.tsx:287 | The same rule for the credit input. |
| JournalVoucherForm.AddEntryRow | src/components/journal-voucher/AddJournalVoucherModal.tsx:82-87 | Exactly one row ("", 0, 0, 0, "") is appended after the unchanged earlier rows. |
| JournalVoucherForm.ComputeTotals | src/components/journal-voucher/AddJournalVoucherModal.tsx:89-91 | The totals are the column sums, 0 for no rows. Difference = total debit - total credit. The sheet shows the voucher as balanced exactly when the two totals agree. |
| JournalVoucherForm.SumOfBalancesIsDifference | src/components/journal-voucher/AddJournalVoucherModal.tsx:89-91 | When every row is consistent, the balances sum to the displayed difference. |
| JournalVoucherForm.AddEntryRowKeepsTotals | src/components/journal-voucher/AddJournalVoucherModal.tsx:82-91 | Appending the blank row leaves all totals unchanged. |
| JournalVoucherForm.SetDebitMovesDifference | src/components/journal-voucher/AddJournalVoucherModal.tsx:70-91 | Setting row i's debit to v moves the total debit and the difference by v minus the old debit. The total credit stays. |
| JournalVoucherForm.SeedRowsConsistentAndBalanced | src/components/journal-voucher/AddJournalVoucherModal.tsx:42-46 | The three seed rows are consistent and balanced (100 / 100 / 0). |
| JournalVoucherForm.UpdateRowPreservesConsistency | src/components/journal-voucher/AddJournalVoucherModal.tsx:70-79 | Every edit preserves "balance = debit - credit on every row". |
| JournalVoucherForm.AddEntryRowPreservesConsistency | src/components/journal-voucher/AddJournalVoucherModal.tsx:82-87 | Appending preserves the same invariant. |
| JournalVoucherForm.SubmitForm | src/components/journal-voucher/AddJournalVoucherModal.tsx:91-103 | Submit always closes the sheet and keeps rows and details. The voucher number is reported exactly when onSuccess is given. |
| JournalVoucherForm.RunPreservesConsistency | src/components/journal-voucher/AddJournalVoucherModal.tsx:65-103 | Any sequence of edits, appends, submits and cancels keeps the invariant. |
| JournalVoucherForm.ReachableBalancesSumToDifference | src/components/journal-voucher/AddJournalVoucherModal.tsx:42-91 | In every sheet reachable from the initial one, the balances sum to the shown difference. |
| JournalVoucherForm.UnbalancedSubmitCloses | src/components/journal-voucher/AddJournalVoucherModal.tsx:91-103 | An unbalanced sheet (difference -40) is still closed and reported as "11121". |
| StudentRoster.FilterStudents | src/pages/StudentModulePage.tsx:29-42 | The result holds only students that meet all five criteria, and it holds every such student. |
| StudentRoster.FilterStudentsConcat | src/pages/StudentModulePage.tsx:29-42 | Filtering distributes over concatenation, so the original order is kept. |
| StudentRoster.MatchesSearchIff | src/pages/StudentModulePage.tsx:31-33 | Search matches iff the lower-cased term occurs at some position of the lower-cased name or id. |
| StudentRoster.NoFiltersKeepsAll | src/pages/StudentModulePage.tsx:31-38 | With an empty search and every selector "all", every student is kept, in order. |
| StudentRoster.WildcardSelectorImposesNothing | src/pages/StudentModulePage.tsx:35-38 | A class selector of "all" removes the class condition and keeps the other four. |
| StudentRoster.Distribution | src/pages/StudentModulePage.tsx:52-55 | The type histogram only has positive counts. |
| StudentRoster.DistributionCounts | src/pages/StudentModulePage.tsx:52-55 | Each type's histogram count is the number of students of that type. A type is a key exactly when that count is positive. |
| StudentRoster.TypeCountsSum | src/pages/StudentModulePage.tsx:52-55 | The three type counts add up to the number of students. |
| StudentRoster.ComputeStats | src/pages/StudentModulePage.tsx:45-62 | totalStudents = the filtered count and totalRevenue = the sum of annual incomes. averageMonths is 0 on an empty list; otherwise it times the count equals the months sum. |
| StudentRoster.DistributionSumsToTotal | src/pages/StudentModulePage.tsx:46-55 | The histogram counts sum to totalStudents. |
| StudentRoster.RevenueNonNegative | src/pages/StudentModulePage.tsx:47 | With non-negative incomes, revenue is non-negative. |
| StudentRoster.NewStudent | src/pages/StudentModulePage.tsx:66-77 | The new id reads as the roster length + 1. Each field the form supplies is copied. An absent name, class or section becomes "", gender Male, type Day Scholar, months and income 0, and the fee flag false. No enrolment date is set. |
| StudentRoster.NewStudentIsPatchedDefault | src/pages/StudentModulePage.tsx:66-93 | A new student equals the update handler's merge of the same form data over the all-defaults record with the next id. |
| StudentRoster.AddStudent | src/pages/StudentModulePage.tsx:66-79 | Exactly one student is appended, after unchanged existing students. Nothing else on the page changes. |
| StudentRoster.Merge | src/pages/StudentModulePage.tsx:88-93 | Fields present in the patch override the student's fields; the id is kept. An empty patch changes nothing. |
| StudentRoster.UpdateStudent | src/pages/StudentModulePage.tsx:86-97 | With no editing student it is a no-op. Otherwise the patch is merged into exactly the students with the edited id, the length and every id are kept, and editing is cleared. |
| StudentRoster.RequestDelete | src/pages/StudentModulePage.tsx:99-102 | The student becomes pending and the dialog opens; the list is untouched. |
| StudentRoster.ConfirmDelete | src/pages/StudentModulePage.tsx:104-110 | With nothing pending it is a no-op. Otherwise every student with the pending id goes, the others stay in order, and the pending state resets. |
| StudentRoster.EditStudent | src/pages/StudentModulePage.tsx:81-84 | The student becomes the edited one and the form opens. |
| StudentRoster.CloseAddModal | src/pages/StudentModulePage.tsx:129-132 | The form closes and editing is cleared. |
| StudentRoster.SubmitStudent | src/pages/StudentModulePage.tsx:234 | A submit updates while a student is being edited (length kept) and adds otherwise (length + 1). Either way editing ends cleared. |
| StudentRoster.AddAfterDeleteRepeatsId | src/pages/StudentModulePage.tsx:66-79 | Deleting "1" from ["1","2"] and adding gives two students with id "2": ids are not unique. |
| StudentRoster.BulkAction | src/pages/StudentModulePageEnhanced.tsx:138-158 | "delete" removes exactly the students whose id is selected, keeps the rest in order, and empties the selection. Every other action leaves the page unchanged. |
| StudentRoster.SelectedIds | src/pages/StudentModulePageEnhanced.tsx:152 | The ids of the selection, position by position. |
| StudentRoster.SelectionStaysEmpty | src/pages/StudentModulePageEnhanced.tsx:151-155 | No handler adds to the selection, so from an empty selection it stays empty. |
| StudentRoster.ReachableBulkDeleteRemovesNobody | src/pages/StudentModulePageEnhanced.tsx:151-155 | On every reachable page, a bulk delete removes no student. |
| StudentRoster.FiltersAppliedIff | src/pages/StudentModulePageEnhanced.tsx:298-302 | "Filters applied" is hidden exactly when the filter keeps the whole list. It is hidden for the default filters. |
| StudentRoster.FilterFullLengthIsIdentity | src/pages/StudentModulePageEnhanced.tsx:45-58 | A filter result as long as its input equals the input. |
| StudentForm.InputChange | src/components/student-module/AddStudentModal.tsx:49-54 | The edited field takes the value and only its message is hidden. Every other field's entry is unchanged. |
| StudentForm.Validate | src/components/student-module/AddStudentModal.tsx:56-77 | A field has a message exactly when its rule is broken (blank name, class or section after trim; months ≤ 0; income ≤ 0), and each message is non-empty. The other three fields never get one. |
| StudentForm.ValidIffNoRuleBroken | src/components/student-module/AddStudentModal.tsx:56-77 | The form is valid iff no rule fires, and the map holds exactly the fired keys. |
| StudentForm.ValidIffEveryRuleHolds | src/components/student-module/AddStudentSheet.tsx:84-105 | Valid iff name, class and section each contain a non-space character and both numbers are positive. |
| StudentForm.Submit | src/components/student-module/AddStudentModal.tsx:79-85 | onSubmit receives the data iff it is valid, and then the form closes and resets. Otherwise the data stays and the messages are shown. |
| StudentForm.Close | src/components/student-module/AddStudentModal.tsx:87-100 | Close resets to the defaults, clears every message and closes. |
| StudentForm.LoadForm | src/components/student-module/AddStudentSheet.tsx:50-75 | The edited student's fields load (missing fee flag becomes false), or the defaults load. Messages are cleared either way. |
| StudentForm.CloseIsFreshLoad | src/components/student-module/AddStudentSheet.tsx:115-128 | Closing gives exactly the state of opening for a new student. |
| StudentForm.EditClearsOnlyItsMessage | src/components/student-module/AddStudentSheet.tsx:77-82 | After an edit, a message is shown iff it was shown before and belongs to another field. |
| StudentForm.ValidSubmitAddsWellFormedStudent | src/components/student-module/AddStudentSheet.tsx:107-113 | A submitted form, added by the roster page, yields a student with non-blank name, class and section and positive months and income. |
| PaymentVoucherForm.SetDetail | src/components/payment-voucher/AddPaymentVoucherModal.tsx:43-50 | A detail input sets its own field and no other. |
| PaymentVoucherForm.ChangeTransaction | src/components/payment-voucher/AddPaymentVoucherModal.tsx:52-56 | One field of transaction i takes the raw text. Every other transaction and the other field are unchanged. |
| PaymentVoucherForm.AddTransaction | src/components/payment-voucher/AddPaymentVoucherModal.tsx:58-63 | {"", ""} is appended after the unchanged earlier transactions. |
| PaymentVoucherForm.AddButtonRow | src/components/payment-voucher/AddPaymentVoucherModal.tsx:232-240 | "+ Add" sits on the last row only. |
| PaymentVoucherForm.SubmitForm | src/components/payment-voucher/AddPaymentVoucherModal.tsx:65-98 | An empty party or voucher name raises the alert and changes nothing. Otherwise the form resets to the initial value and closes, and "PV-0124" is reported iff onSuccess is given. |
| PaymentVoucherForm.CancelForm | src/components/payment-voucher/AddPaymentVoucherModal.tsx:263-268 | Cancel closes and keeps what was typed. |
| PaymentVoucherForm.InitialFormIsRejected | src/components/payment-voucher/AddPaymentVoucherModal.tsx:27-41 | The sheet opens with an empty party name, so an immediate submit is rejected. |
| PaymentVoucherForm.AcceptedThenRejected | src/components/payment-voucher/AddPaymentVoucherModal.tsx:67-98 | After an accepted submit, the next submit is rejected. |
| PaymentVoucherForm.CancelReopenKeepsInput | src/components/payment-voucher/AddPaymentVoucherModal.tsx:263-268 | Cancel then reopen restores the exact form. |
| PaymentVoucherForm.RunKeepsThreeRows | src/components/payment-voucher/AddPaymentVoucherModal.tsx:52-98 | Every reachable form has at least three transaction rows. |
| PaymentVoucherForm.ReportedNumberIgnoresInput | src/components/payment-voucher/AddPaymentVoucherModal.tsx:76-78 | Any two accepted forms report the same number and reset to the same form. |
| AcademicProgress.WithAcademics | src/components/student-module/AcademicProgressTracker.tsx:21-45 | The overall score and attendance times 5 equal the sums over the five subjects. |
| AcademicProgress.GeneratedFiguresInRange | src/components/student-module/AcademicProgressTracker.tsx:23-32 | Scores in [60, 95) and attendances in [75, 95) give averages in [60, 95] and [75, 95]. |
| AcademicProgress.FilterTracked | src/components/student-module/AcademicProgressTracker.tsx:56-60 | Exactly the students whose class and section match their selectors (or "all") are kept. |
| AcademicProgress.AllSelectionKeepsEveryone | src/components/student-module/AcademicProgressTracker.tsx:56-60 | "all"/"all" keeps everyone in order. |
| AcademicProgress.CategoryOf | src/components/student-module/AcademicProgressTracker.tsx:62-67 | Excellent iff ≥ 90, Good iff in [80, 90), Average iff in [70, 80), Needs Improvement iff < 70. |
| AcademicProgress.CategoryMonotone | src/components/student-module/AcademicProgressTracker.tsx:62-67 | A higher score never gets a worse category. |
| AcademicProgress.ClassAverage | src/components/student-module/AcademicProgressTracker.tsx:69-71 | 0 for nobody. Otherwise the average times the count equals the score sum. |
| AcademicProgress.ClassAverageWithinScores | src/components/student-module/AcademicProgressTracker.tsx:69-71 | The average lies within the bounds of the scores. |
| Sorting.SortBy | src/components/student-module/AcademicProgressTracker.tsx:74 | The sort is a permutation of its input, ordered by the key. |
| AcademicProgress.RankedDesc | src/components/student-module/AcademicProgressTracker.tsx:73-74 | The reordered array is a permutation of the filtered students, in non-increasing score order. |
| AcademicProgress.TopPerformers | src/components/student-module/AcademicProgressTracker.tsx:73-75 | min(5, n) students, a sub-multiset of the input, non-increasing by score. |
| AcademicProgress.TopPerformersAreTheBest | src/components/student-module/AcademicProgressTracker.tsx:73-75 | Anyone scoring strictly above a listed student is listed. |
| AcademicProgress.NeedsAttention | src/components/student-module/AcademicProgressTracker.tsx:77-79 | A permutation of the students with score < 70 or attendance < 80, in non-decreasing score order. |
| AcademicProgress.NeedsAttentionExactly | src/components/student-module/AcademicProgressTracker.tsx:77-79 | Each student appears as often as in the input if they need help, and never otherwise. |
| AcademicProgress.AttentionShown | src/components/student-module/AcademicProgressTracker.tsx:223 | The card lists the first min(10, n) of them. |
| AcademicProgress.TopPerformersCaptionMismatch | src/components/student-module/AcademicProgressTracker.tsx:149-150 | One student scoring 60 gives a top-five count of 1 under the "Above 90%" caption. |
| AcademicProgress.RankedAboveNinety | src/components/student-module/AcademicProgressTracker.tsx:73-75 | The ranked students scoring ≥ 90 are as many as in the roster, in non-increasing order. |
| AcademicProgress.TopPerformersAboveNinety | src/components/student-module/AcademicProgressTracker.tsx:149-150 | The card as captioned: at most 5 students, drawn from the roster (a sub-multiset), all Excellent, non-increasing, min(5, number scoring ≥ 90) of them. |
| AcademicProgress.AboveNinetyFromRoster | src/components/student-module/AcademicProgressTracker.tsx:73-75 | The ranked students scoring ≥ 90 are, with multiplicity, exactly the roster's students scoring ≥ 90. |
| AcademicProgress.TopAboveNinetyAreTheBest | src/components/student-module/AcademicProgressTracker.tsx:149-150 | Nobody scoring strictly above a student on the corrected card is left off it. |
| FeeHistory.BaseFee | src/components/student-module/FeeHistoryModal.tsx:41-42 | 4500 for Hostel, 3200 for Bus, 2400 for Day Scholar. |
| FeeHistory.RecordAt | src/components/student-module/FeeHistoryModal.tsx:38-59 | Record i: id i+1, month index (month + i) mod 12, the previous year when i > month, Paid iff i < monthsEnrolled - 1, paid date and method present iff Paid, total = tuition + extras, late fee 0 or 100. |
| FeeHistory.JanuaryRecordLabelledApril | src/components/student-module/FeeHistoryModal.tsx:34-38 | A record generated in January is labelled "Apr", because the name table starts at April. |
| FeeHistory.RecordCount | src/components/student-module/FeeHistoryModal.tsx:37 | The loop runs min(monthsEnrolled, 12) times, and not at all for months ≤ 0. |
| FeeHistory.Generated | src/components/student-module/FeeHistoryModal.tsx:37-60 | Record i sits at position i. |
| FeeHistory.FeeHistoryOf | src/components/student-module/FeeHistoryModal.tsx:30-63 | Nothing for a null student. Otherwise RecordCount records, in reverse generation order. |
| FeeHistory.HistoryNewestFirst | src/components/student-module/FeeHistoryModal.tsx:37-63 | At most 12 records, ids counting down from the length to 1, month indices in 0..11. |
| FeeHistory.AtMostOnePending | src/components/student-module/FeeHistoryModal.tsx:51-56 | A record is Pending iff it is the first shown and monthsEnrolled is in 1..12. |
| FeeHistory.Summarize | src/components/student-module/FeeHistoryModal.tsx:73-78 | Total paid sums totalAmount + lateFee over Paid records, and total pending sums totalAmount over Pending ones. The two counts partition the history, and the average uses MonthlyAverage. |
| FeeHistory.MonthlyAverage | src/components/student-module/FeeHistoryModal.tsx:135 | With no payments the average is the total itself (division by 1). Otherwise the average times the count is the total. |
| FeeHistory.PaidAndPendingCoverEverything | src/components/student-module/FeeHistoryModal.tsx:73-78 | Paid + pending = every record's amount plus the late fees of paid records only. |
| FeeHistory.PendingCountOfStudent | src/components/student-module/FeeHistoryModal.tsx:37-78 | One pending record for 1..12 months enrolled and none otherwise; the paid count is the rest. |
| FeeHistory.EmptyHistorySummary | src/components/student-module/FeeHistoryModal.tsx:37-78 | With months ≤ 0 every figure is 0. |
| FeeHistory.PaidPercentageAsWritten | src/components/student-module/FeeHistoryModal.tsx:150 | The as-written ratio is undefined (NaN) iff the history is empty. |
| FeeHistory.PaidPercentageNaNWhenNotEnrolled | src/components/student-module/FeeHistoryModal.tsx:150 | A student with 0 months shows NaN%. |
| FeeHistory.PaidPercentage | src/components/student-module/FeeHistoryModal.tsx:135-150 | The guarded percentage is in [0, 100], is 0 on an empty history, and agrees with the as-written one otherwise. |
| FeeHistory.Percentage | src/components/student-module/FeeHistoryModal.tsx:150 | part / max(whole, 1) × 100 lies in [0, 100] and times whole gives part × 100. |
| BulkActions.CheckAction | src/components/student-module/BulkActionsModal.tsx:110 | Checking a box chooses its action alone. Unchecking chooses none. |
| BulkActions.AtMostOneChecked | src/components/student-module/BulkActionsModal.tsx:110 | Two checked boxes are the same box. |
| BulkActions.SetEmailOption | src/components/student-module/BulkActionsModal.tsx:123-150 | Each email box sets its own flag only. |
| BulkActions.Submit | src/components/student-module/BulkActionsModal.tsx:37-50 | "email" sends the options; every other action sends its name alone. The dialog then resets to no action and all options false. |
| BulkActions.SubmitDisablesSubmit | src/components/student-module/BulkActionsModal.tsx:213 | After a submit nothing is checked and the button is disabled. |
| BulkActions.SubmitThenHandle | src/pages/StudentModulePageEnhanced.tsx:138-158 | A submitted "delete" empties the page's selection; any other request leaves the page unchanged. |
| BulkActions.TotalFees | src/components/student-module/BulkActionsModal.tsx:52-54 | Sum of annual incomes, 0 for none. |
| BulkActions.TotalFeesNonNegative | src/components/student-module/BulkActionsModal.tsx:52-54 | Non-negative incomes give a non-negative total. |
| BulkActions.TotalFeesIsRevenue | src/components/student-module/BulkActionsModal.tsx:52-54 | The total equals the roster page's revenue figure for the same students. |
| BulkActions.TotalFeesSplit | src/components/student-module/BulkActionsModal.tsx:52-54 | The total is additive over concatenation. |
| BulkActions.BadgeIf | src/components/student-module/BulkActionsModal.tsx:82-91 | A type's badge is present iff some selected student has it, and it carries that count. |
| BulkActions.Badges | src/components/student-module/BulkActionsModal.tsx:81-92 | At most 3 badges, each with a positive count equal to its type's count, one for every present type, in Day Scholar / Bus / Hostel order. |
| BulkActions.BadgeCountsSumToSelection | src/components/student-module/BulkActionsModal.tsx:81-92 | The badge counts sum to the selection size. |
| VoucherTables.DeleteClick | src/components/journal-voucher/JournalVoucherTable.tsx:44-48 | The key becomes pending and the dialog opens; the list and toast are untouched. |
| VoucherTables.ConfirmDelete | src/components/journal-voucher/JournalVoucherTable.tsx:50-64 | With no truthy pending key it is a no-op. Otherwise exactly the vouchers with other keys remain, pending is cleared, the dialog closes and the toast shows. |
| VoucherTables.SetModalOpen | src/components/journal-voucher/JournalVoucherTable.tsx:161 | Only the dialog flag changes; the pending key is kept. |
| VoucherTables.CloseToast | src/components/journal-voucher/JournalVoucherTable.tsx:169 | Only the toast flag changes. |
| VoucherTables.ConfirmTwiceIsConfirmOnce | src/components/journal-voucher/JournalVoucherTable.tsx:50-64 | A second confirm changes nothing. |
| VoucherTables.ClickThenConfirm | src/components/payment-voucher/PaymentVoucherTable.tsx:23-55 | With a non-empty key, click then confirm removes exactly as many vouchers as share the key. With "" the confirm is ignored. |
| VoucherTables.DismissKeepsPending | src/components/payment-voucher/PaymentVoucherTable.tsx:155 | Dismissing and reopening the dialog keeps the pending key, so a later confirm deletes it. |
| VoucherTables.JournalStep | src/components/journal-voucher/JournalVoucherTable.tsx:35-64 | View sets the selection and back clears it. Only confirm changes the list. |
| VoucherTables.ViewThenBack | src/components/journal-voucher/JournalVoucherTable.tsx:67-73 | The detail view shows iff the viewed number is non-empty. View then back restores the table. |
| VoucherTables.PaymentStep | src/components/payment-voucher/PaymentVoucherTable.tsx:29-37 | Print and edit change nothing. Only confirm changes the list. |
| VoucherTables.PaymentRunOnlyRemoves | src/components/payment-voucher/PaymentVoucherTable.tsx:23-55 | Any event sequence only removes vouchers. |
| JournalVoucherDocuments.TypeLabel | src/components/journal-voucher/JournalVoucherDocuments.tsx:57-59 | "PDF" if the type contains "pdf". Otherwise the upper-cased second "/" segment, or "FILE" when it is absent or empty. Never empty. |
| JournalVoucherDocuments.SubtypeLabel | src/components/journal-voucher/JournalVoucherDocuments.tsx:59 | A non-pdf kind/subtype is labelled with the upper-cased subtype. |
| JournalVoucherDocuments.ExtraSegmentsIgnored | src/components/journal-voucher/JournalVoucherDocuments.tsx:59 | Anything after a second "/" does not change the label. |
| JournalVoucherDocuments.PdfLabel | src/components/journal-voucher/JournalVoucherDocuments.tsx:57-58 | "application/pdf" is labelled "PDF". |
| JournalVoucherDocuments.NoSubtypeLabel | src/components/journal-voucher/JournalVoucherDocuments.tsx:59 | "text" is labelled "FILE". |
| JournalVoucherDocuments.EmptySubtypeLabel | src/components/journal-voucher/JournalVoucherDocuments.tsx:59 | "image/" is labelled "FILE". |
| JournalVoucherDocuments.ToDocument | src/components/journal-voucher/JournalVoucherDocuments.tsx:53-60 | The document takes the file's name and size, the given id, and the type label. |
| JournalVoucherDocuments.NewDocuments | src/components/journal-voucher/JournalVoucherDocuments.tsx:52-62 | One document per file, in file order. |
| JournalVoucherDocuments.Drop | src/components/journal-voucher/JournalVoucherDocuments.tsx:47-63 | The highlight goes off and the files' documents follow the unchanged old ones. |
| JournalVoucherDocuments.FileSelect | src/components/journal-voucher/JournalVoucherDocuments.tsx:65-78 | The picked files' documents are appended; a null list adds nothing. |
| JournalVoucherDocuments.DropAndSelectAgree | src/components/journal-voucher/JournalVoucherDocuments.tsx:47-78 | Dropping and picking the same files give the same documents. |
| JournalVoucherDocuments.Remove | src/components/journal-voucher/JournalVoucherDocuments.tsx:80-82 | Exactly the documents with other ids remain. |
| JournalVoucherDocuments.RemoveUndoesUpload | src/components/journal-voucher/JournalVoucherDocuments.tsx:47-82 | Removing a freshly uploaded document restores the list. |
| JournalVoucherDocuments.DragOver | src/components/journal-voucher/JournalVoucherDocuments.tsx:37-40 | The highlight turns on; documents unchanged. |
| JournalVoucherDocuments.DragLeave | src/components/journal-voucher/JournalVoucherDocuments.tsx:42-45 | The highlight turns off; documents unchanged. |
| JournalVoucherDocuments.HoverThenLeave | src/components/journal-voucher/JournalVoucherDocuments.tsx:37-45 | Over then leave restores the panel. |
| ReportTree.InitialExpansion | src/components/reports/TrialBalanceTable.tsx:16-19 | An id reads as expanded iff it is a top-level id. |
| ReportTree.Toggle | src/components/reports/TrialBalanceTable.tsx:34-39 | The id's flag flips (unset becomes expanded); every other id is untouched. |
| ReportTree.ToggleTwiceRestores | src/components/reports/LedgerTable.tsx:34-39 | Toggling twice restores each id's expanded reading. |
| ReportTree.ToggleTwiceSameRows | src/components/reports/BalanceSheetTable.tsx:34-39 | Toggling twice renders exactly the same rows. |
| ReportTree.SameExpandedSameRows | src/components/reports/TrialBalanceTable.tsx:41-76 | The rows depend on the map only through which ids read as expanded. |
| ReportTree.VisibleNode | src/components/reports/TrialBalanceTable.tsx:42-76 | A row renders first, before its children's rows. |
| ReportTree.TopLevelAlwaysVisible | src/components/reports/TrialBalanceTable.tsx:42-44 | Every top-level item is rendered, whatever is expanded. |
| ReportTree.CollapsedHidesDescendants | src/components/reports/LedgerTable.tsx:77-79 | A collapsed row renders itself only. |
| ReportTree.AllCollapsedShowsList | src/components/reports/TrialBalanceTable.tsx:71-73 | With every listed row collapsed, exactly the listed rows render. |
| ReportTree.InitiallyTwoLevels | src/components/reports/LedgerTable.tsx:16-19 | On first render a top-level row shows its children (in the ledger and balance sheet only if expandable), and they stay closed. |
| ReportTree.NotExpandableNeverOpens | src/components/reports/LedgerTable.tsx:77-79 | In the ledger and balance sheet a row not marked expandable never shows its children. |
| ReportTree.TrialBalanceIgnoresExpandable | src/components/reports/TrialBalanceTable.tsx:71-73 | The trial balance opens an expanded row whether or not it is marked expandable. |
| ReportTree.RowsAtMostNodes | src/components/reports/BalanceSheetTable.tsx:74-76 | Never more rows than nodes. |
| ReportTree.AllOpenShowsEverything | src/components/reports/TrialBalanceTable.tsx:71-73 | With every row open, the rendering is the full pre-order traversal. |
| ReportTree.LedgerShowsNoMoreThanTrialBalance | src/components/reports/LedgerTable.tsx:77-79 | For the same tree and map, the ledger renders no more rows than the trial balance. |
| ReportTree.FormatCurrency | src/components/reports/TrialBalanceTable.tsx:24-31 | "-" and "" are returned unchanged, and unreadable text becomes "-". A number, or readable text, is shown as a number. |
| ReportTree.DigitTextShownAsNumber | src/components/reports/LedgerTable.tsx:24-31 | A whole number written as text displays like the number. |
| ReportTree.UnreadableTextShownAsDash | src/components/reports/BalanceSheetTable.tsx:24-31 | Text starting with a character that cannot begin a number displays "-". |
| ReportTree.RowOf | src/components/reports/BalanceSheetTable.tsx:60-70 | Margin = level × 24. The balance sheet has no credit cell and the other reports have both. |
| ReportTree.Rows | src/components/reports/TrialBalanceTable.tsx:42-69 | One rendered row per visible item, in order. |
| ReportTree.BalanceSheetDebitOnly | src/components/reports/BalanceSheetTable.tsx:68-70 | Every balance sheet row has no credit cell. |
| AccountTree.ControlsOf | src/components/charts-of-account/AccountTreeNode.tsx:20-58 | Parents get the toggle and "Add Category". Leaves get Edit and View Detail. The spacer goes on non-root leaves only. |
| AccountTree.ParentOrLeafActions | src/components/charts-of-account/AccountTreeNode.tsx:44-58 | Every node has exactly one of the two action sets. |
| AccountTree.Toggle | src/components/charts-of-account/AccountTreeNode.tsx:13-67 | The node's own flag flips, and flags outside its subtree are untouched. Collapsing also resets every flag strictly below it to expanded, because those nodes unmount and remount with `true`. Expanding leaves the flags below unchanged. |
| AccountTree.ToggleTwice | src/components/charts-of-account/AccountTreeNode.tsx:13-67 | Toggling twice keeps every flag outside the node's strict subtree and resets those inside it. When none inside was collapsed, the state is restored. |
| AccountTree.TogglePreservesMounted | src/components/charts-of-account/AccountTreeNode.tsx:20-24 | Toggling a node whose ancestors are all expanded keeps the invariant that no collapsed node lies inside another collapsed node's subtree. |
| AccountTree.RenderNode | src/components/charts-of-account/AccountTreeNode.tsx:17-76 | A node's own line, padded level × 20, comes first. |
| AccountTree.LevelIsDepthNode | src/components/charts-of-account/AccountTreeNode.tsx:61-66 | Below a node, each line's level is its path depth and its padding is 20 per level. |
| AccountTree.RenderedLevelIsDepth | src/components/charts-of-account/AccountTreeNode.tsx:18 | In the whole chart each line's level is its depth and its padding is 20 × level. |
| AccountTree.CollapsedParent | src/components/charts-of-account/AccountTreeNode.tsx:68-74 | A collapsed parent renders its line and "+ Add Category", and no descendant. |
| AccountTree.LeafIsOneLine | src/components/charts-of-account/AccountTreeNode.tsx:15 | A leaf renders one line. |
| AccountTree.OpenSubtreeNode | src/components/charts-of-account/AccountTreeNode.tsx:13-74 | With no collapsed flag in a node's subtree, the node shows its whole subtree in pre-order, with no "+ Add Category" line. |
| AccountTree.InitialRender | src/components/charts-of-account/AccountTreeNode.tsx:13 | Initially every account is listed in pre-order, with no extra line. |
| AccountTree.ReopenShowsWholeSubtree | src/components/charts-of-account/AccountTreeNode.tsx:13-67 | Collapsing an expanded node and expanding it again shows its whole subtree, whatever was collapsed inside it before. |
| AccountTree.ExpandShowsWholeSubtree | src/components/charts-of-account/AccountTreeNode.tsx:13-67 | Expanding a collapsed node shows its whole subtree, given the no-collapsed-node-inside-a-collapsed-subtree invariant. |
| AccountTree.CollapsingShowsFewerList | src/components/charts-of-account/AccountTreeNode.tsx:61-74 | Collapsing never shows more accounts than the open tree. |

## Left out

- Presentation: JSX, styling, icons and the UI libraries are not modelled. Alerts, `console.log` and the toast's three-second timer are left out; they only produce output.
- Randomness and the clock: `Math.random`, `new Date()` and `Date.now()` become parameters. Subject scores, extra fees, payment methods, late fees, the current month and year, and document ids are supplied by the caller. Document ids are assumed fresh where a lemma needs it.
- Number formatting: `toLocaleString`, `toFixed`, `Math.round` and the MB size text are left out. A number passed to `toLocaleString` is kept as the number, and a size is kept as its already formatted text.
- FeeHistory.RecordAt: the date strings are reduced to their day numbers and the month label is kept as an index. The "`${month} ${year}`" text itself is not built.
- FeeHistory.Summarize: the average is stated before `Math.round`, so the whole-rupee rounding of the card is not modelled.
- ReportTree.FormatCurrency: a numeric NaN cell cannot occur with real numbers, so the `isNaN` branch is modelled only for text.
- Text parsing is ASCII: `parseFloat` reads an optional sign, digits and a fraction. Exponents and "Infinity" are not read. `trim`, `toLowerCase` and `toUpperCase` act on ASCII only.
- Student months enrolled and annual income are integers. The form stores `parseFloat(...) || 0`, so fractional input is not modelled.
- `handleVoucherDetailChange` and `handleSelectChange` of the journal voucher sheet are not modelled. They are plain field setters with no derived state.
- The row-click handler of the journal table is left out. Its `closest()` check is DOM event handling; View is modelled instead.
- Optional `children` on report items and account nodes is modelled as the empty sequence. Both render no children.
- Account tree flags are kept per path of child positions. React keys each node by `child.id` among its siblings, which names the same node for a fixed tree. The flags of unmounted nodes are modelled as forgotten: collapsing a node resets every flag below it. A toggle is taken only from a node on screen (AccountTree.OnScreen). Rearranging the tree while it is shown is not modelled.
- Edits aimed past the last row are ignored. The journal sheet and the payment sheet never issue them, since their indices come from the rendered rows, and the source does no range check.
- The add-student dialog evaluates its initial form only when it is mounted. StudentForm.LoadForm models that expression; reopening the dialog for another student without remounting is not modelled.
- The tree and fee types use `seq`, `real` and unbounded `int`. JavaScript doubles and their rounding are not modelled.

## Findings

| source | as written | input that shows it | evidently intended | confidence | as-written member | corrected member |
|---|---|---|---|---|---|---|
| src/components/student-module/FeeHistoryModal.tsx:150 | The paid share divides the paid count by `feeHistory.length` with no guard | A student with `monthsEnrolled` = 0 has an empty history, and the card reads NaN% | Divide by at least 1, as the "Average Monthly" card at line 135 does, giving 0% | not executed | FeeHistory.PaidPercentageNaNWhenNotEnrolled | FeeHistory.PaidPercentage |
| src/components/student-module/AcademicProgressTracker.tsx:150 | The card counting `topPerformers` is captioned "Above 90%", but lines 73-75 take the first five with no threshold | A class whose only student averages 60 shows a count of 1 | Count only students scoring 90 or more, at most five | not executed | AcademicProgress.TopPerformersCaptionMismatch | AcademicProgress.TopPerformersAboveNinety |

/**
 * The bulk actions dialog of the enhanced roster page: the summary of the
 * selected students, the single-choice action checkboxes with the email
 * options, and the submit that hands the chosen action to the page.
 */
module BulkActions {
  import opened Wrappers
  import opened Students
  import Seqs
  import StudentRoster

  datatype EmailOptions = EmailOptions(sendFeeReminder: bool, sendProgressReport: bool, sendAnnouncement: bool)

  const NoEmailOptions := EmailOptions(false, false, false)

  /** The dialog's own state: the chosen action ("" for none) and the email options. */
  datatype Dialog = Dialog(selectedAction: string, emailOptions: EmailOptions)

  const InitialDialog := Dialog("", NoEmailOptions)

  /** What `onBulkAction` receives: the action, and the options only for "email". */
  datatype Request = Request(action: string, options: Option<EmailOptions>)

  /** The four action checkboxes, in the order they are shown. */
  function ActionNames(): seq<string> {
    ["email", "export", "update", "delete"]
  }

  /** A box shows as checked exactly when its action is the chosen one. */
  predicate Checked(d: Dialog, name: string) {
    d.selectedAction == name
  }

  /** `onCheckedChange` of an action box: checking chooses that action, unchecking chooses none. */
  function CheckAction(d: Dialog, name: string, checked: bool): (r: Dialog)
    ensures r.emailOptions == d.emailOptions
    ensures checked ==> Checked(r, name) && forall other :: other != name ==> !Checked(r, other)
    ensures !checked ==> forall other :: !Checked(r, other) || other == ""
  {
    d.(selectedAction := if checked then name else "")
  }

  /** At most one box is ever checked, whatever was clicked before. */
  lemma AtMostOneChecked(d: Dialog, i: nat, j: nat)
    requires i < |ActionNames()| && j < |ActionNames()|
    requires Checked(d, ActionNames()[i]) && Checked(d, ActionNames()[j])
    ensures i == j
  {
  }

  datatype EmailOption = FeeReminder | ProgressReport | Announcement

  /** The three email option boxes set their own flag only. */
  function SetEmailOption(d: Dialog, opt: EmailOption, value: bool): (r: Dialog)
    ensures r.selectedAction == d.selectedAction
    ensures opt == FeeReminder ==> r.emailOptions == d.emailOptions.(sendFeeReminder := value)
    ensures opt == ProgressReport ==> r.emailOptions == d.emailOptions.(sendProgressReport := value)
    ensures opt == Announcement ==> r.emailOptions == d.emailOptions.(sendAnnouncement := value)
  {
    var o := d.emailOptions;
    d.(emailOptions := match opt
      case FeeReminder => o.(sendFeeReminder := value)
      case ProgressReport => o.(sendProgressReport := value)
      case Announcement => o.(sendAnnouncement := value))
  }

  /** The submit button is enabled exactly when some action is chosen. */
  predicate SubmitEnabled(d: Dialog) {
    d.selectedAction != ""
  }

  /** `handleActionSubmit`: the request sent, then the dialog closed and reset. */
  function Submit(d: Dialog): (r: (Request, Dialog))
    ensures r.0.action == d.selectedAction
    ensures r.0.options.Some? <==> d.selectedAction == "email"
    ensures r.0.options.Some? ==> r.0.options.value == d.emailOptions
    ensures r.1 == InitialDialog
  {
    var request :=
      if d.selectedAction == "email" then Request("email", Some(d.emailOptions))
      else Request(d.selectedAction, None);
    (request, InitialDialog)
  }

  /** After a submit nothing is chosen, so the button is disabled until a box is checked again. */
  lemma SubmitDisablesSubmit(d: Dialog)
    ensures !SubmitEnabled(Submit(d).1)
    ensures forall name :: !Checked(Submit(d).1, name) || name == ""
  {
  }

  /**
   * The request reaches the roster page's handler: a "delete" request leaves
   * no selected student, and any other request leaves the page as it was.
   */
  lemma SubmitThenHandle(d: Dialog, p: StudentRoster.Page)
    ensures var q := StudentRoster.BulkAction(p, Submit(d).0.action);
      (d.selectedAction == "delete" ==> q.selected == []) && (d.selectedAction != "delete" ==> q == p)
  {
  }

  // ---------------------------------------------------------------------------
  // Summary of the selection
  // ---------------------------------------------------------------------------

  /** `getTotalFees`: the annual amounts of the selected students added up. */
  function TotalFees(selected: seq<Student>): (total: int)
    ensures selected == [] ==> total == 0
  {
    Seqs.Sum(selected, Income)
  }

  /** With non-negative incomes the fee total is never negative. */
  lemma TotalFeesNonNegative(selected: seq<Student>)
    requires forall i :: 0 <= i < |selected| ==> selected[i].annualIncome >= 0
    ensures TotalFees(selected) >= 0
  {
    Seqs.SumNonNegative(selected, Income);
  }

  /** The dialog's fee total and the roster page's revenue card agree on the same students. */
  lemma TotalFeesIsRevenue(selected: seq<Student>)
    ensures TotalFees(selected) == StudentRoster.ComputeStats(selected).totalRevenue
  {
  }

  /** The fee total of a selection is the sum of the totals of any split of it. */
  lemma TotalFeesSplit(a: seq<Student>, b: seq<Student>)
    ensures TotalFees(a + b) == TotalFees(a) + TotalFees(b)
  {
    Seqs.SumConcat(a, b, Income);
  }

  datatype Badge = Badge(studentType: StudentType, count: nat)

  /** The badge of one type: present exactly when some selected student has that type. */
  function BadgeIf(sel: seq<Student>, t: StudentType): (b: seq<Badge>)
    ensures |b| <= 1
    ensures |b| == 1 <==> StudentRoster.CountType(sel, t) > 0
    ensures |b| == 1 ==> b[0] == Badge(t, StudentRoster.CountType(sel, t))
  {
    var c := StudentRoster.CountType(sel, t);
    if c > 0 then [Badge(t, c)] else []
  }

  /** The "Student Types" badges: Day Scholar, Bus, Hostel in that order, each only when its count is positive. */
  function Badges(sel: seq<Student>): (badges: seq<Badge>)
    ensures |badges| <= 3
    ensures forall i :: 0 <= i < |badges| ==>
      badges[i].count > 0 && badges[i].count == StudentRoster.CountType(sel, badges[i].studentType)
    ensures forall t :: StudentRoster.CountType(sel, t) > 0 ==> Badge(t, StudentRoster.CountType(sel, t)) in badges
    ensures forall i, j :: 0 <= i < j < |badges| ==> TypeOrder(badges[i].studentType) < TypeOrder(badges[j].studentType)
  {
    BadgesFacts(sel);
    BadgeIf(sel, DayScholar) + BadgeIf(sel, Bus) + BadgeIf(sel, Hostel)
  }

  /** Where each badge sits in the concatenation, and that every present type has its badge. */
  lemma BadgesFacts(sel: seq<Student>)
    ensures var a, b, c := BadgeIf(sel, DayScholar), BadgeIf(sel, Bus), BadgeIf(sel, Hostel);
      var badges := a + b + c;
      && (forall i :: 0 <= i < |badges| ==>
        && TypeOrder(badges[i].studentType) == (if i < |a| then 0 else if i < |a| + |b| then 1 else 2)
        && badges[i].count > 0 && badges[i].count == StudentRoster.CountType(sel, badges[i].studentType))
      && (forall t :: StudentRoster.CountType(sel, t) > 0 ==> Badge(t, StudentRoster.CountType(sel, t)) in badges)
  {
    var a, b, c := BadgeIf(sel, DayScholar), BadgeIf(sel, Bus), BadgeIf(sel, Hostel);
    var badges := a + b + c;
    forall i | 0 <= i < |badges|
      ensures TypeOrder(badges[i].studentType) == if i < |a| then 0 else if i < |a| + |b| then 1 else 2
      ensures badges[i].count > 0 && badges[i].count == StudentRoster.CountType(sel, badges[i].studentType)
    {
      if i < |a| {
        assert badges[i] == a[0];
      } else if i < |a| + |b| {
        assert badges[i] == b[0];
      } else {
        assert badges[i] == c[0];
      }
    }
    forall t | StudentRoster.CountType(sel, t) > 0
      ensures Badge(t, StudentRoster.CountType(sel, t)) in badges
    {
      match t
      case DayScholar => assert badges[0] == a[0];
      case Bus => assert badges[|a|] == b[0];
      case Hostel => assert badges[|a| + |b|] == c[0];
    }
  }

  function TypeOrder(t: StudentType): nat {
    match t
    case DayScholar => 0
    case Bus => 1
    case Hostel => 2
  }

  function BadgeCount(b: Badge): int { b.count }

  /** The badge counts add up to the number of selected students. */
  lemma BadgeCountsSumToSelection(sel: seq<Student>)
    ensures Seqs.Sum(Badges(sel), BadgeCount) == |sel|
  {
    StudentRoster.TypeCountsSum(sel);
    var a, b, c := BadgeIf(sel, DayScholar), BadgeIf(sel, Bus), BadgeIf(sel, Hostel);
    Seqs.SumConcat(a + b, c, BadgeCount);
    Seqs.SumConcat(a, b, BadgeCount);
    SingleBadgeSum(sel, DayScholar);
    SingleBadgeSum(sel, Bus);
    SingleBadgeSum(sel, Hostel);
  }

  lemma SingleBadgeSum(sel: seq<Student>, t: StudentType)
    ensures Seqs.Sum(BadgeIf(sel, t), BadgeCount) == StudentRoster.CountType(sel, t)
  {
    var c := StudentRoster.CountType(sel, t);
    if c > 0 {
      assert [Badge(t, c)][..0] == [];
    }
  }
}

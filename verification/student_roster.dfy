/**
 * The student roster pages (the plain page and the enhanced page): the filtered
 * view, the statistics cards, and the add / update / delete / bulk handlers.
 * Both pages share the same filter, statistics and handlers; the enhanced page
 * adds the selection and the bulk-action handler.
 */
module StudentRoster {
  import opened Wrappers
  import opened Students
  import Text
  import Seqs

  // ---------------------------------------------------------------------------
  // Filtering
  // ---------------------------------------------------------------------------

  /** The five filter inputs: free-text search and four selectors where "all" means any. */
  datatype Criteria = Criteria(
    search: string,
    studentClass: string,
    section: string,
    studentType: string,
    gender: string)

  const NoFilters := Criteria("", "all", "all", "all", "all")

  /** Case-insensitive substring match of the search term on the name or on the id. */
  predicate MatchesSearch(s: Student, term: string) {
    var t := Text.ToLower(term);
    Text.Contains(Text.ToLower(s.name), t) || Text.Contains(Text.ToLower(s.id), t)
  }

  /** A selector admits a value when it is the wildcard "all" or equal to it. */
  predicate Selects(selector: string, value: string) {
    selector == "all" || value == selector
  }

  predicate Matches(c: Criteria, s: Student) {
    && MatchesSearch(s, c.search)
    && Selects(c.studentClass, s.studentClass)
    && Selects(c.section, s.section)
    && Selects(c.studentType, TypeName(s.studentType))
    && Selects(c.gender, GenderName(s.gender))
  }

  function Matcher(c: Criteria): Student -> bool {
    (s: Student) => Matches(c, s)
  }

  /** `filteredStudents`. */
  function FilterStudents(students: seq<Student>, c: Criteria): (r: seq<Student>)
    ensures |r| <= |students|
    ensures forall i :: 0 <= i < |r| ==> r[i] in students && Matches(c, r[i])
    ensures forall i :: 0 <= i < |students| && Matches(c, students[i]) ==> students[i] in r
  {
    Seqs.Filter(students, Matcher(c))
  }

  /** The filter of a concatenation is the concatenation of the filters: the order of the roster is kept. */
  lemma FilterStudentsConcat(a: seq<Student>, b: seq<Student>, c: Criteria)
    ensures FilterStudents(a + b, c) == FilterStudents(a, c) + FilterStudents(b, c)
  {
    Seqs.FilterConcat(a, b, Matcher(c));
  }

  /** The search is exactly a substring test on the lower-cased name or id. */
  lemma MatchesSearchIff(s: Student, term: string)
    ensures MatchesSearch(s, term) <==>
      (exists i :: Text.OccursAt(Text.ToLower(s.name), Text.ToLower(term), i))
      || (exists i :: Text.OccursAt(Text.ToLower(s.id), Text.ToLower(term), i))
  {
    Text.ContainsIff(Text.ToLower(s.name), Text.ToLower(term));
    Text.ContainsIff(Text.ToLower(s.id), Text.ToLower(term));
  }

  /** With an empty search and every selector on "all", the whole roster is shown, in order. */
  lemma NoFiltersKeepsAll(students: seq<Student>)
    ensures FilterStudents(students, NoFilters) == students
  {
    forall i | 0 <= i < |students| ensures Matches(NoFilters, students[i]) {
      Text.ContainsEmpty(Text.ToLower(students[i].name));
    }
    Seqs.FilterKeepsAll(students, Matcher(NoFilters));
  }

  /** A selector on "all" never excludes anyone: dropping it changes nothing. */
  lemma WildcardSelectorImposesNothing(s: Student, c: Criteria)
    ensures Matches(c.(studentClass := "all"), s) <==>
      MatchesSearch(s, c.search) && Selects(c.section, s.section)
      && Selects(c.studentType, TypeName(s.studentType)) && Selects(c.gender, GenderName(s.gender))
  {
  }

  // ---------------------------------------------------------------------------
  // Statistics
  // ---------------------------------------------------------------------------

  datatype Stats = Stats(
    totalStudents: nat,
    totalRevenue: int,
    averageMonths: real,
    distribution: map<StudentType, nat>)

  function OfType(t: StudentType): Student -> bool {
    (s: Student) => s.studentType == t
  }

  function CountType(s: seq<Student>, t: StudentType): nat {
    |Seqs.Filter(s, OfType(t))|
  }

  /** `studentTypeDistribution`: the reduce that bumps `acc[type]`, one student at a time. */
  function Distribution(s: seq<Student>): (d: map<StudentType, nat>)
    ensures forall t :: t in d ==> d[t] > 0
    decreases |s|
  {
    if |s| == 0 then map[]
    else
      var d := Distribution(s[..|s| - 1]);
      var t := s[|s| - 1].studentType;
      d[t := (if t in d then d[t] else 0) + 1]
  }

  function CountIn(d: map<StudentType, nat>, t: StudentType): nat {
    if t in d then d[t] else 0
  }

  /** `stats`. */
  function ComputeStats(filtered: seq<Student>): (st: Stats)
    ensures st.totalStudents == |filtered|
    ensures st.totalRevenue == Seqs.Sum(filtered, Income)
    ensures |filtered| == 0 ==> st.averageMonths == 0.0
    ensures |filtered| > 0 ==> st.averageMonths * |filtered| as real == Seqs.Sum(filtered, Months) as real
  {
    var n := |filtered|;
    Stats(
      n,
      Seqs.Sum(filtered, Income),
      if n > 0 then Seqs.Sum(filtered, Months) as real / n as real else 0.0,
      Distribution(filtered))
  }

  /** Each bucket of the distribution holds exactly the number of students of that type. */
  lemma {:induction false} DistributionCounts(s: seq<Student>, t: StudentType)
    ensures CountIn(Distribution(s), t) == CountType(s, t)
    ensures t in Distribution(s) <==> CountType(s, t) > 0
    decreases |s|
  {
    if |s| > 0 {
      DistributionCounts(s[..|s| - 1], t);
      assert s == s[..|s| - 1] + [s[|s| - 1]];
      Seqs.FilterConcat(s[..|s| - 1], [s[|s| - 1]], OfType(t));
    }
  }

  lemma {:induction false} TypeCountsSum(s: seq<Student>)
    ensures CountType(s, DayScholar) + CountType(s, Bus) + CountType(s, Hostel) == |s|
    decreases |s|
  {
    if |s| > 0 {
      var front, last := s[..|s| - 1], s[|s| - 1];
      TypeCountsSum(front);
      assert s == front + [last];
      Seqs.FilterConcat(front, [last], OfType(DayScholar));
      Seqs.FilterConcat(front, [last], OfType(Bus));
      Seqs.FilterConcat(front, [last], OfType(Hostel));
    }
  }

  /** The distribution card's counts add up to the total-students card. */
  lemma DistributionSumsToTotal(filtered: seq<Student>)
    ensures var st := ComputeStats(filtered);
      CountIn(st.distribution, DayScholar) + CountIn(st.distribution, Bus) + CountIn(st.distribution, Hostel)
        == st.totalStudents
  {
    DistributionCounts(filtered, DayScholar);
    DistributionCounts(filtered, Bus);
    DistributionCounts(filtered, Hostel);
    TypeCountsSum(filtered);
  }

  /** With non-negative incomes the revenue card is never negative. */
  lemma RevenueNonNegative(filtered: seq<Student>)
    requires forall i :: 0 <= i < |filtered| ==> filtered[i].annualIncome >= 0
    ensures ComputeStats(filtered).totalRevenue >= 0
  {
    Seqs.SumNonNegative(filtered, Income);
  }

  // ---------------------------------------------------------------------------
  // Page state and handlers
  // ---------------------------------------------------------------------------

  datatype Page = Page(
    students: seq<Student>,
    criteria: Criteria,
    editing: Option<Student>,
    deleting: Option<Student>,
    addOpen: bool,
    deleteOpen: bool,
    selected: seq<Student>)

  function Filtered(p: Page): seq<Student> {
    FilterStudents(p.students, p.criteria)
  }

  /** The "Filters applied" note of the enhanced page. */
  predicate FiltersApplied(p: Page) {
    |Filtered(p)| != |p.students|
  }

  /** The record `handleAddStudent` builds: the id is the roster length plus one, absent fields take defaults. */
  function NewStudent(count: nat, d: StudentPatch): (s: Student)
    ensures Text.ParseFloat(s.id) == Some((count + 1) as real)
    ensures s.name == d.name.GetOr("") && s.gender == d.gender.GetOr(Male)
    ensures s.studentClass == d.studentClass.GetOr("") && s.section == d.section.GetOr("")
    ensures s.studentType == d.studentType.GetOr(DayScholar)
    ensures s.monthsEnrolled == d.monthsEnrolled.GetOr(0) && s.annualIncome == d.annualIncome.GetOr(0)
    ensures s.hasFeeBreakdown == Some(d.hasFeeBreakdown.GetOr(false))
    ensures s.enrolledDate.None?
  {
    Text.ParseNatToString(count + 1);
    Student(
      Text.NatToString(count + 1),
      d.name.GetOr(""),
      d.gender.GetOr(Male),
      d.studentClass.GetOr(""),
      d.section.GetOr(""),
      d.studentType.GetOr(DayScholar),
      d.monthsEnrolled.GetOr(0),
      d.annualIncome.GetOr(0),
      None,
      Some(d.hasFeeBreakdown.GetOr(false)))
  }

  /** `handleAddStudent`: one new student at the end, everyone else untouched. */
  function AddStudent(p: Page, d: StudentPatch): (r: Page)
    ensures |r.students| == |p.students| + 1
    ensures r.students[..|p.students|] == p.students
    ensures r.students[|p.students|] == NewStudent(|p.students|, d)
    ensures r.(students := p.students) == p
  {
    p.(students := p.students + [NewStudent(|p.students|, d)])
  }

  /** `{ ...student, ...studentData }`: the fields present in the patch win, the id and enrolment date stay. */
  function Merge(s: Student, d: StudentPatch): (r: Student)
    ensures r.id == s.id && r.enrolledDate == s.enrolledDate
    ensures r.name == d.name.GetOr(s.name) && r.studentClass == d.studentClass.GetOr(s.studentClass)
    ensures r.monthsEnrolled == d.monthsEnrolled.GetOr(s.monthsEnrolled)
    ensures r.annualIncome == d.annualIncome.GetOr(s.annualIncome)
    ensures d == StudentPatch(None, None, None, None, None, None, None, None) ==> r == s
  {
    Student(
      s.id,
      d.name.GetOr(s.name),
      d.gender.GetOr(s.gender),
      d.studentClass.GetOr(s.studentClass),
      d.section.GetOr(s.section),
      d.studentType.GetOr(s.studentType),
      d.monthsEnrolled.GetOr(s.monthsEnrolled),
      d.annualIncome.GetOr(s.annualIncome),
      s.enrolledDate,
      if d.hasFeeBreakdown.Some? then d.hasFeeBreakdown else s.hasFeeBreakdown)
  }

  /** The record the add handler falls back on, field by field, when the form leaves a field out. */
  function DefaultStudent(id: string): Student {
    Student(id, "", Male, "", "", DayScholar, 0, 0, None, Some(false))
  }

  /**
   * Adding and updating agree: the new student is the form's patch laid over
   * the all-defaults record that carries the next id.
   */
  lemma NewStudentIsPatchedDefault(count: nat, d: StudentPatch)
    ensures NewStudent(count, d) == Merge(DefaultStudent(Text.NatToString(count + 1)), d)
  {
  }

  /** `handleUpdateStudent`: merges into every student carrying the edited id and clears the editing slot. */
  function UpdateStudent(p: Page, d: StudentPatch): (r: Page)
    ensures p.editing.None? ==> r == p
    ensures |r.students| == |p.students|
    ensures r.editing.None?
    ensures p.editing.Some? ==> forall i :: 0 <= i < |p.students| ==>
      r.students[i] == if p.students[i].id == p.editing.value.id then Merge(p.students[i], d) else p.students[i]
    ensures forall i :: 0 <= i < |p.students| ==> r.students[i].id == p.students[i].id
  {
    match p.editing
    case None => p
    case Some(e) =>
      p.(students := seq(|p.students|, i requires 0 <= i < |p.students| =>
                           if p.students[i].id == e.id then Merge(p.students[i], d) else p.students[i]),
         editing := None)
  }

  /** `handleDeleteStudent`: remembers the student and opens the confirmation. */
  function RequestDelete(p: Page, s: Student): (r: Page)
    ensures r.deleting == Some(s) && r.deleteOpen && r.students == p.students
  {
    p.(deleting := Some(s), deleteOpen := true)
  }

  function IdIsNot(id: string): Student -> bool {
    (s: Student) => s.id != id
  }

  function IdNotIn(ids: seq<string>): Student -> bool {
    (s: Student) => s.id !in ids
  }

  /** The roster without the students carrying `id`, in order. */
  function WithoutId(students: seq<Student>, id: string): seq<Student> {
    Seqs.Filter(students, IdIsNot(id))
  }

  /** `confirmDeleteStudent`. */
  function ConfirmDelete(p: Page): (r: Page)
    ensures p.deleting.None? ==> r == p
    ensures p.deleting.Some? ==> r.deleting.None? && !r.deleteOpen
    ensures p.deleting.Some? ==>
      r.students == WithoutId(p.students, p.deleting.value.id)
    ensures p.deleting.Some? ==> forall i :: 0 <= i < |r.students| ==> r.students[i].id != p.deleting.value.id
    ensures p.deleting.Some? ==> forall i :: 0 <= i < |p.students| && p.students[i].id != p.deleting.value.id ==>
      p.students[i] in r.students
  {
    match p.deleting
    case None => p
    case Some(d) =>
      p.(students := WithoutId(p.students, d.id), deleting := None, deleteOpen := false)
  }

  /** The form's `onSubmit` is `editingStudent ? handleUpdateStudent : handleAddStudent`. */
  function SubmitStudent(p: Page, d: StudentPatch): (r: Page)
    ensures p.editing.Some? ==> |r.students| == |p.students|
    ensures p.editing.None? ==> |r.students| == |p.students| + 1
    ensures r.editing.None?
  {
    if p.editing.Some? then UpdateStudent(p, d) else AddStudent(p, d)
  }

  function EditStudent(p: Page, s: Student): (r: Page)
    ensures r.editing == Some(s) && r.addOpen && r.students == p.students
  {
    p.(editing := Some(s), addOpen := true)
  }

  /** `closeAddModal`. */
  function CloseAddModal(p: Page): (r: Page)
    ensures !r.addOpen && r.editing.None? && r.students == p.students
  {
    p.(addOpen := false, editing := None)
  }

  /** `handleBulkAction`: only "delete" touches the roster; "email", "export", "update" and unknown actions only notify. */
  function BulkAction(p: Page, action: string): (r: Page)
    ensures action != "delete" ==> r == p
    ensures action == "delete" ==> r.selected == []
    ensures action == "delete" ==> forall i :: 0 <= i < |r.students| ==>
      r.students[i] in p.students && r.students[i].id !in SelectedIds(p.selected)
    ensures action == "delete" ==> forall i :: 0 <= i < |p.students| && p.students[i].id !in SelectedIds(p.selected) ==>
      p.students[i] in r.students
  {
    if action == "delete" then
      var ids := SelectedIds(p.selected);
      p.(students := Seqs.Filter(p.students, IdNotIn(ids)), selected := [])
    else p
  }

  function SelectedIds(sel: seq<Student>): (ids: seq<string>)
    ensures |ids| == |sel|
    ensures forall i :: 0 <= i < |sel| ==> ids[i] == sel[i].id
  {
    seq(|sel|, i requires 0 <= i < |sel| => sel[i].id)
  }

  /** Two students may end up sharing an id: after deleting "1" from ["1", "2"], the next add is given "2" again. */
  lemma AddAfterDeleteRepeatsId(a: Student, b: Student, d: StudentPatch)
    requires a.id == "1" && b.id == "2"
    ensures var p := ConfirmDelete(RequestDelete(Page([a, b], NoFilters, None, None, false, false, []), a));
      var q := AddStudent(p, d);
      |q.students| == 2 && q.students[0].id == q.students[1].id == "2"
  {
    var p := ConfirmDelete(RequestDelete(Page([a, b], NoFilters, None, None, false, false, []), a));
    assert [a, b] == [a] + [b];
    Seqs.FilterConcat([a], [b], IdIsNot(a.id));
    assert [a][..0] == [] && [b][..0] == [];
    assert p.students == [b];
    assert Text.NatToString(2) == "2";
  }

  // ---------------------------------------------------------------------------
  // The enhanced page as a state machine
  // ---------------------------------------------------------------------------

  datatype Event =
    | SetCriteria(c: Criteria)
    | OpenEdit(s: Student)
    | Submit(d: StudentPatch)
    | CloseAdd
    | OpenDelete(s: Student)
    | Confirm
    | CloseDelete
    | Bulk(action: string)

  function Step(p: Page, ev: Event): Page {
    match ev
    case SetCriteria(c) => p.(criteria := c)
    case OpenEdit(s) => EditStudent(p, s)
    case Submit(d) => SubmitStudent(p, d)
    case CloseAdd => CloseAddModal(p)
    case OpenDelete(s) => RequestDelete(p, s)
    case Confirm => ConfirmDelete(p)
    case CloseDelete => p.(deleteOpen := false)
    case Bulk(a) => BulkAction(p, a)
  }

  function Run(p: Page, evs: seq<Event>): Page
    decreases |evs|
  {
    if |evs| == 0 then p else Run(Step(p, evs[0]), evs[1..])
  }

  /**
   * No handler of the enhanced page ever adds to `selectedStudents`: the only
   * write clears it. From the initial empty selection it therefore stays empty.
   */
  lemma {:induction false} SelectionStaysEmpty(p: Page, evs: seq<Event>)
    requires p.selected == []
    ensures Run(p, evs).selected == []
    decreases |evs|
  {
    if |evs| > 0 {
      SelectionStaysEmpty(Step(p, evs[0]), evs[1..]);
    }
  }

  /** Consequently a bulk delete on a reachable page removes nobody. */
  lemma ReachableBulkDeleteRemovesNobody(students: seq<Student>, evs: seq<Event>)
    ensures var p := Run(Page(students, NoFilters, None, None, false, false, []), evs);
      BulkAction(p, "delete").students == p.students
  {
    var p := Run(Page(students, NoFilters, None, None, false, false, []), evs);
    SelectionStaysEmpty(Page(students, NoFilters, None, None, false, false, []), evs);
    Seqs.FilterKeepsAll(p.students, IdNotIn(SelectedIds(p.selected)));
  }

  /** The "Filters applied" note is off exactly when the filter keeps everyone; it is off for the default filters. */
  lemma FiltersAppliedIff(p: Page)
    ensures !FiltersApplied(p) <==> Filtered(p) == p.students
    ensures p.criteria == NoFilters ==> !FiltersApplied(p)
  {
    if !FiltersApplied(p) {
      FilterFullLengthIsIdentity(p.students, p.criteria);
    }
    if p.criteria == NoFilters {
      NoFiltersKeepsAll(p.students);
    }
  }

  /** A filter that keeps as many students as it was given kept all of them, in order. */
  lemma {:induction false} FilterFullLengthIsIdentity(s: seq<Student>, c: Criteria)
    requires |FilterStudents(s, c)| == |s|
    ensures FilterStudents(s, c) == s
    decreases |s|
  {
    if |s| > 0 {
      var front, last := s[..|s| - 1], s[|s| - 1];
      assert s == front + [last];
      FilterStudentsConcat(front, [last], c);
      var fl := FilterStudents([last], c);
      assert |FilterStudents(front, c)| == |front| && |fl| == 1;
      assert fl[0] in [last];
      assert fl == [last];
      FilterFullLengthIsIdentity(front, c);
    }
  }
}

/**
 * The add/edit student form, as both the dialog and the side sheet implement it:
 * field edits, the five validation rules, submit and close. The two components
 * share these handlers line for line; the sheet additionally reloads its fields
 * whenever it is opened or the edited student changes.
 */
module StudentForm {
  import opened Wrappers
  import opened Students
  import Text
  import StudentRoster

  datatype Field = Name | GenderField | ClassField | Section | TypeField | MonthsEnrolled | AnnualIncome | FeeBreakdown

  /** The form's `formData`: all eight fields are always present once the form is initialised. */
  datatype FormData = FormData(
    name: string,
    gender: Gender,
    studentClass: string,
    section: string,
    studentType: StudentType,
    monthsEnrolled: int,
    annualIncome: int,
    hasFeeBreakdown: bool)

  /**
   * `handleInputChange(field, value)` as the seven inputs issue it; the number
   * inputs pass `parseFloat(value) || 0`. No input edits `hasFeeBreakdown`.
   */
  datatype Edit =
    | SetName(name: string)
    | SetGender(gender: Gender)
    | SetClass(studentClass: string)
    | SetSection(section: string)
    | SetType(studentType: StudentType)
    | SetMonths(months: int)
    | SetIncome(income: int)

  datatype FormState = FormState(data: FormData, errors: map<Field, string>)

  /** What a submit or close produces: the new state, what `onSubmit` received, and whether the form closed. */
  datatype Outcome = Outcome(state: FormState, submitted: Option<FormData>, closed: bool)

  const Defaults := FormData("", Male, "", "", DayScholar, 0, 0, false)

  const NameRequired := "Student name is required"
  const ClassRequired := "Class is required"
  const SectionRequired := "Section is required"
  const MonthsPositive := "Months enrolled must be greater than 0"
  const IncomePositive := "Annual income must be greater than 0"

  function FieldOf(e: Edit): Field {
    match e
    case SetName(_) => Name
    case SetGender(_) => GenderField
    case SetClass(_) => ClassField
    case SetSection(_) => Section
    case SetType(_) => TypeField
    case SetMonths(_) => MonthsEnrolled
    case SetIncome(_) => AnnualIncome
  }

  function ApplyEdit(d: FormData, e: Edit): FormData {
    match e
    case SetName(v) => d.(name := v)
    case SetGender(v) => d.(gender := v)
    case SetClass(v) => d.(studentClass := v)
    case SetSection(v) => d.(section := v)
    case SetType(v) => d.(studentType := v)
    case SetMonths(v) => d.(monthsEnrolled := v)
    case SetIncome(v) => d.(annualIncome := v)
  }

  /** A field's message is on screen when its entry is present and non-empty (a truthy string). */
  predicate ErrorShown(errors: map<Field, string>, f: Field) {
    f in errors && errors[f] != ""
  }

  /** `handleInputChange`: the field takes the new value and only that field's message is blanked. */
  function InputChange(st: FormState, e: Edit): (r: FormState)
    ensures r.data == ApplyEdit(st.data, e)
    ensures !ErrorShown(r.errors, FieldOf(e))
    ensures forall f :: f != FieldOf(e) ==> (f in r.errors <==> f in st.errors)
    ensures forall f :: f != FieldOf(e) && f in st.errors ==> r.errors[f] == st.errors[f]
  {
    var f := FieldOf(e);
    FormState(ApplyEdit(st.data, e), if ErrorShown(st.errors, f) then st.errors[f := ""] else st.errors)
  }

  /** The rules of `validateForm`: which fields the data breaks. */
  predicate Broken(d: FormData, f: Field) {
    match f
    case Name => Text.IsBlank(d.name)
    case ClassField => Text.IsBlank(d.studentClass)
    case Section => Text.IsBlank(d.section)
    case MonthsEnrolled => d.monthsEnrolled <= 0
    case AnnualIncome => d.annualIncome <= 0
    case _ => false
  }

  function Message(f: Field): string {
    match f
    case Name => NameRequired
    case ClassField => ClassRequired
    case Section => SectionRequired
    case MonthsEnrolled => MonthsPositive
    case _ => IncomePositive
  }

  const AllFields: set<Field> := {Name, GenderField, ClassField, Section, TypeField, MonthsEnrolled, AnnualIncome, FeeBreakdown}

  /** `validateForm`: one message per broken rule, and nothing else. */
  function Validate(d: FormData): (errors: map<Field, string>)
    ensures forall f :: f in errors <==> Broken(d, f)
    ensures forall f :: f in errors ==> ErrorShown(errors, f) && errors[f] == Message(f)
  {
    map f | f in AllFields && Broken(d, f) :: Message(f)
  }

  predicate IsValid(d: FormData) {
    Validate(d) == map[]
  }

  /** The form is valid exactly when the three texts hold a non-blank character and both numbers are positive. */
  lemma ValidIffEveryRuleHolds(d: FormData)
    ensures IsValid(d) <==>
      && (exists i :: 0 <= i < |d.name| && !Text.IsSpace(d.name[i]))
      && (exists i :: 0 <= i < |d.studentClass| && !Text.IsSpace(d.studentClass[i]))
      && (exists i :: 0 <= i < |d.section| && !Text.IsSpace(d.section[i]))
      && d.monthsEnrolled > 0 && d.annualIncome > 0
  {
    Text.BlankIffAllSpace(d.name);
    Text.BlankIffAllSpace(d.studentClass);
    Text.BlankIffAllSpace(d.section);
    ValidIffNoRuleBroken(d);
  }

  /** The form is valid exactly when none of the five rules is broken. */
  lemma ValidIffNoRuleBroken(d: FormData)
    ensures IsValid(d) <==>
      && !Text.IsBlank(d.name) && !Text.IsBlank(d.studentClass) && !Text.IsBlank(d.section)
      && d.monthsEnrolled > 0 && d.annualIncome > 0
  {
    var errs := Validate(d);
    assert Broken(d, Name) <==> Name in errs;
    assert Broken(d, ClassField) <==> ClassField in errs;
    assert Broken(d, Section) <==> Section in errs;
    assert Broken(d, MonthsEnrolled) <==> MonthsEnrolled in errs;
    assert Broken(d, AnnualIncome) <==> AnnualIncome in errs;
    if forall f :: !Broken(d, f) {
      assert errs.Keys == {};
    }
  }

  /** The eight fields, all present, as `Partial<Student>`. */
  function ToPatch(d: FormData): StudentPatch {
    StudentPatch(Some(d.name), Some(d.gender), Some(d.studentClass), Some(d.section),
                 Some(d.studentType), Some(d.monthsEnrolled), Some(d.annualIncome), Some(d.hasFeeBreakdown))
  }

  /** `handleClose`: back to the defaults with no messages. */
  function Close(st: FormState): (o: Outcome)
    ensures o.state == FormState(Defaults, map[]) && o.closed && o.submitted.None?
  {
    Outcome(FormState(Defaults, map[]), None, true)
  }

  /**
   * `handleSubmit`: a valid form goes to `onSubmit` and is then closed (and so
   * reset); an invalid one only shows its messages.
   */
  function Submit(st: FormState): (o: Outcome)
    ensures o.submitted.Some? <==> IsValid(st.data)
    ensures o.submitted.Some? ==> o.submitted.value == st.data && o.closed && o.state == Close(st).state
    ensures o.submitted.None? ==> !o.closed && o.state == FormState(st.data, Validate(st.data))
  {
    var errors := Validate(st.data);
    if errors == map[] then
      var c := Close(st);
      Outcome(c.state, Some(st.data), true)
    else
      Outcome(st.(errors := errors), None, false)
  }

  /**
   * The fields the form starts from: the edited student's (with the JavaScript
   * `|| default` fallbacks), or the defaults. The sheet runs this, and clears
   * the messages, whenever it opens or the edited student changes; the dialog
   * only evaluates the same expression once, when it is first mounted.
   */
  function LoadForm(editing: Option<Student>): (st: FormState)
    ensures st.errors == map[]
    ensures editing.None? ==> st.data == Defaults
    ensures editing.Some? ==> var s := editing.value;
      && st.data.name == s.name && st.data.studentClass == s.studentClass && st.data.section == s.section
      && st.data.gender == s.gender && st.data.studentType == s.studentType
      && st.data.monthsEnrolled == s.monthsEnrolled && st.data.annualIncome == s.annualIncome
      && st.data.hasFeeBreakdown == (s.hasFeeBreakdown == Some(true))
  {
    match editing
    case None => FormState(Defaults, map[])
    case Some(s) =>
      FormState(FormData(s.name, s.gender, s.studentClass, s.section, s.studentType,
                         s.monthsEnrolled, s.annualIncome, s.hasFeeBreakdown.GetOr(false)), map[])
  }

  /** Closing returns the form to exactly what opening it for a new student shows. */
  lemma CloseIsFreshLoad(st: FormState)
    ensures Close(st).state == LoadForm(None)
  {
  }

  /** After a field edit, every other field's message is shown exactly as before, and the edited one is not shown. */
  lemma EditClearsOnlyItsMessage(st: FormState, e: Edit, f: Field)
    ensures ErrorShown(InputChange(st, e).errors, f) <==> f != FieldOf(e) && ErrorShown(st.errors, f)
  {
  }

  /**
   * What a valid submit forwards is well-formed: when the roster page adds it,
   * the new student has a non-blank name, class and section and positive
   * months and income.
   */
  lemma ValidSubmitAddsWellFormedStudent(st: FormState, p: StudentRoster.Page)
    requires p.editing.None?
    requires Submit(st).submitted.Some?
    ensures var q := StudentRoster.SubmitStudent(p, ToPatch(Submit(st).submitted.value));
      var s := q.students[|p.students|];
      && !Text.IsBlank(s.name) && !Text.IsBlank(s.studentClass) && !Text.IsBlank(s.section)
      && s.monthsEnrolled > 0 && s.annualIncome > 0
  {
    ValidIffNoRuleBroken(st.data);
  }
}

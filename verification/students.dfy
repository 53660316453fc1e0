/** The student record shared by the roster pages, the student forms and the student dialogs. */
module Students {
  import opened Wrappers

  datatype Gender = Male | Female

  datatype StudentType = DayScholar | Bus | Hostel

  /** The strings the selectors and the records compare against. */
  function GenderName(g: Gender): string {
    match g
    case Male => "Male"
    case Female => "Female"
  }

  function TypeName(t: StudentType): string {
    match t
    case DayScholar => "Day Scholar"
    case Bus => "Bus"
    case Hostel => "Hostel"
  }

  /**
   * A roster entry. `enrolledDate` and `hasFeeBreakdown` may be missing: the
   * add handler never sets the first, and the second is optional in the type.
   */
  datatype Student = Student(
    id: string,
    name: string,
    gender: Gender,
    studentClass: string,
    section: string,
    studentType: StudentType,
    monthsEnrolled: int,
    annualIncome: int,
    enrolledDate: Option<string>,
    hasFeeBreakdown: Option<bool>)

  /** `Partial<Student>` as the student forms hand it over: the eight editable fields, each possibly absent. */
  datatype StudentPatch = StudentPatch(
    name: Option<string>,
    gender: Option<Gender>,
    studentClass: Option<string>,
    section: Option<string>,
    studentType: Option<StudentType>,
    monthsEnrolled: Option<int>,
    annualIncome: Option<int>,
    hasFeeBreakdown: Option<bool>)

  function Income(s: Student): int { s.annualIncome }
  function Months(s: Student): int { s.monthsEnrolled }
}

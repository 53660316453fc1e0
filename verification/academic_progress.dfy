/**
 * The academic progress tracker: per-student overall score and attendance,
 * the class/section filter, the performance category, the class average, the
 * top-five card and the needs-attention list.
 */
module AcademicProgress {
  import opened Students
  import Seqs
  import Sorting

  /** One subject's generated marks. */
  datatype Grade = Grade(score: real, attendance: real)

  /** A student with the academic figures the tracker derives for it. */
  datatype Tracked = Tracked(student: Student, overallScore: real, overallAttendance: real)

  /** Every student gets one grade per subject: Mathematics, Science, English, Social Studies, Computer. */
  const SubjectCount := 5

  function GradeScore(g: Grade): real { g.score }
  function GradeAttendance(g: Grade): real { g.attendance }

  /**
   * `generateAcademicData` for one student, with the random marks given as
   * `grades`: the overall score and attendance are the means over the subjects.
   */
  function WithAcademics(s: Student, grades: seq<Grade>): (t: Tracked)
    requires |grades| == SubjectCount
    ensures t.student == s
    ensures t.overallScore * SubjectCount as real == Seqs.SumReal(grades, GradeScore)
    ensures t.overallAttendance * SubjectCount as real == Seqs.SumReal(grades, GradeAttendance)
  {
    Tracked(s, Seqs.SumReal(grades, GradeScore) / SubjectCount as real,
               Seqs.SumReal(grades, GradeAttendance) / SubjectCount as real)
  }

  /**
   * The generator draws scores from [60, 95) and attendance from [75, 95), so
   * the overall figures stay inside the same ranges.
   */
  lemma GeneratedFiguresInRange(s: Student, grades: seq<Grade>)
    requires |grades| == SubjectCount
    requires forall i :: 0 <= i < |grades| ==> 60.0 <= grades[i].score < 95.0
    requires forall i :: 0 <= i < |grades| ==> 75.0 <= grades[i].attendance < 95.0
    ensures 60.0 <= WithAcademics(s, grades).overallScore <= 95.0
    ensures 75.0 <= WithAcademics(s, grades).overallAttendance <= 95.0
  {
    Seqs.SumRealBounds(grades, GradeScore, 60.0, 95.0);
    Seqs.SumRealBounds(grades, GradeAttendance, 75.0, 95.0);
  }

  // ---------------------------------------------------------------------------
  // Filter
  // ---------------------------------------------------------------------------

  /** The two selectors; "all" accepts every value. */
  datatype Selection = Selection(selectedClass: string, selectedSection: string)

  predicate InSelection(sel: Selection, t: Tracked) {
    && (sel.selectedClass == "all" || t.student.studentClass == sel.selectedClass)
    && (sel.selectedSection == "all" || t.student.section == sel.selectedSection)
  }

  function Selector(sel: Selection): Tracked -> bool {
    (t: Tracked) => InSelection(sel, t)
  }

  /** `filteredStudents`: the students in the selected class and section, in roster order. */
  function FilterTracked(ts: seq<Tracked>, sel: Selection): (r: seq<Tracked>)
    ensures forall i :: 0 <= i < |r| ==> r[i] in ts
    ensures forall i :: 0 <= i < |r| ==>
      (sel.selectedClass == "all" || r[i].student.studentClass == sel.selectedClass) &&
      (sel.selectedSection == "all" || r[i].student.section == sel.selectedSection)
    ensures forall i :: 0 <= i < |ts| && InSelection(sel, ts[i]) ==> ts[i] in r
  {
    Seqs.Filter(ts, Selector(sel))
  }

  /** With both selectors on "all", nothing is filtered out. */
  lemma AllSelectionKeepsEveryone(ts: seq<Tracked>)
    ensures FilterTracked(ts, Selection("all", "all")) == ts
  {
    Seqs.FilterKeepsAll(ts, Selector(Selection("all", "all")));
  }

  // ---------------------------------------------------------------------------
  // Category
  // ---------------------------------------------------------------------------

  datatype Category = Excellent | Good | Average | NeedsImprovement

  function CategoryLabel(c: Category): string {
    match c
    case Excellent => "Excellent"
    case Good => "Good"
    case Average => "Average"
    case NeedsImprovement => "Needs Improvement"
  }

  /** Position of a category, best first. */
  function Rank(c: Category): nat {
    match c
    case Excellent => 0
    case Good => 1
    case Average => 2
    case NeedsImprovement => 3
  }

  /** `getPerformanceCategory`: the first threshold the score reaches, from the top. */
  function CategoryOf(score: real): (c: Category)
    ensures c == Excellent <==> score >= 90.0
    ensures c == Good <==> 80.0 <= score < 90.0
    ensures c == Average <==> 70.0 <= score < 80.0
    ensures c == NeedsImprovement <==> score < 70.0
  {
    if score >= 90.0 then Excellent
    else if score >= 80.0 then Good
    else if score >= 70.0 then Average
    else NeedsImprovement
  }

  /** A higher score never lands in a worse category. */
  lemma CategoryMonotone(a: real, b: real)
    requires a <= b
    ensures Rank(CategoryOf(b)) <= Rank(CategoryOf(a))
  {
  }

  // ---------------------------------------------------------------------------
  // Cards and lists
  // ---------------------------------------------------------------------------

  function Score(t: Tracked): real { t.overallScore }
  function NegScore(t: Tracked): real { -t.overallScore }

  /** `classAverage`: the mean overall score, 0 when nobody is shown. */
  function ClassAverage(filtered: seq<Tracked>): (avg: real)
    ensures |filtered| == 0 ==> avg == 0.0
    ensures |filtered| > 0 ==> avg * |filtered| as real == Seqs.SumReal(filtered, Score)
  {
    if |filtered| > 0 then Seqs.SumReal(filtered, Score) / |filtered| as real else 0.0
  }

  /** The average lies within the range of the scores it averages. */
  lemma ClassAverageWithinScores(filtered: seq<Tracked>, lo: real, hi: real)
    requires |filtered| > 0
    requires forall i :: 0 <= i < |filtered| ==> lo <= filtered[i].overallScore <= hi
    ensures lo <= ClassAverage(filtered) <= hi
  {
    Seqs.SumRealBounds(filtered, Score, lo, hi);
  }

  /**
   * The comparator `b - a` sorts `filteredStudents` in place from the highest
   * score down; both lists below are taken from this reordered array.
   */
  function RankedDesc(filtered: seq<Tracked>): (r: seq<Tracked>)
    ensures multiset(r) == multiset(filtered)
    ensures forall i, j :: 0 <= i < j < |r| ==> r[i].overallScore >= r[j].overallScore
  {
    var r := Sorting.SortBy(filtered, NegScore);
    assert forall i, j :: 0 <= i < j < |r| ==> NegScore(r[i]) <= NegScore(r[j]);
    r
  }

  function Min(a: int, b: int): int { if a <= b then a else b }

  /** `topPerformers`: the first five of the descending order, whatever their scores. */
  function TopPerformers(filtered: seq<Tracked>): (top: seq<Tracked>)
    ensures |top| == Min(5, |filtered|)
    ensures multiset(top) <= multiset(filtered)
    ensures forall i, j :: 0 <= i < j < |top| ==> top[i].overallScore >= top[j].overallScore
  {
    var ranked := RankedDesc(filtered);
    var n := Min(5, |ranked|);
    assert ranked == ranked[..n] + ranked[n..];
    ranked[..n]
  }

  /** In a non-increasing order, a strictly higher score sits strictly earlier. */
  lemma HigherScoreComesFirst(r: seq<Tracked>, m: nat, k: nat)
    requires forall i, j :: 0 <= i < j < |r| ==> r[i].overallScore >= r[j].overallScore
    requires m < |r| && k < |r| && r[m].overallScore > r[k].overallScore
    ensures m < k
  {
  }

  /** Nobody left off the top-five card scores higher than someone on it. */
  lemma TopPerformersAreTheBest(filtered: seq<Tracked>, j: nat, k: nat)
    requires j < |filtered| && k < |TopPerformers(filtered)|
    requires filtered[j].overallScore > TopPerformers(filtered)[k].overallScore
    ensures filtered[j] in TopPerformers(filtered)
  {
    var ranked := RankedDesc(filtered);
    var top := TopPerformers(filtered);
    assert filtered[j] in multiset(ranked);
    var m :| 0 <= m < |ranked| && ranked[m] == filtered[j];
    assert top == ranked[..|top|];
    HigherScoreComesFirst(ranked, m, k);
    assert top[m] == filtered[j];
  }

  /** A student needs attention when the score is below 70 or the attendance below 80. */
  predicate NeedsHelp(t: Tracked) {
    t.overallScore < 70.0 || t.overallAttendance < 80.0
  }

  function NeedsHelpFilter(): Tracked -> bool {
    (t: Tracked) => NeedsHelp(t)
  }

  /**
   * `needsAttention`: the students needing help, taken from the reordered
   * array and then sorted from the lowest score up.
   */
  function NeedsAttention(filtered: seq<Tracked>): (r: seq<Tracked>)
    ensures multiset(r) == multiset(Seqs.Filter(filtered, NeedsHelpFilter()))
    ensures forall i :: 0 <= i < |r| ==> NeedsHelp(r[i])
    ensures forall i, j :: 0 <= i < j < |r| ==> r[i].overallScore <= r[j].overallScore
  {
    var ranked := RankedDesc(filtered);
    var helped := Seqs.Filter(ranked, NeedsHelpFilter());
    Seqs.FilterPermutation(ranked, filtered, NeedsHelpFilter());
    var r := Sorting.SortBy(helped, Score);
    assert forall i :: 0 <= i < |r| ==> NeedsHelp(r[i]) by {
      forall i | 0 <= i < |r|
        ensures NeedsHelp(r[i])
      {
        assert r[i] in multiset(helped);
        var m :| 0 <= m < |helped| && helped[m] == r[i];
      }
    }
    r
  }

  /** Every student needing help, and only those, is on the list, as often as in the filtered roster. */
  lemma NeedsAttentionExactly(filtered: seq<Tracked>, t: Tracked)
    ensures multiset(NeedsAttention(filtered))[t] == if NeedsHelp(t) then multiset(filtered)[t] else 0
  {
    Seqs.FilterMultiset(filtered, NeedsHelpFilter());
  }

  /** The card shows at most ten of them. */
  function AttentionShown(filtered: seq<Tracked>): (shown: seq<Tracked>)
    ensures |shown| <= 10
    ensures |shown| == Min(10, |NeedsAttention(filtered)|)
    ensures shown == NeedsAttention(filtered)[..|shown|]
  {
    var r := NeedsAttention(filtered);
    r[..Min(10, |r|)]
  }

  /**
   * The top-performers card is captioned "Above 90%", yet a class whose only
   * student scores 60 shows a count of 1: no threshold is applied.
   */
  lemma TopPerformersCaptionMismatch(t: Tracked)
    requires t.overallScore == 60.0
    ensures |TopPerformers([t])| == 1
    ensures TopPerformers([t])[0].overallScore < 90.0
  {
    var top := TopPerformers([t]);
    assert multiset(top) <= multiset([t]);
    assert top[0] in multiset([t]);
  }

  function AboveNinety(): Tracked -> bool {
    (t: Tracked) => t.overallScore >= 90.0
  }

  /** The card as its caption describes it: the best five among those scoring 90 or more. */
  function TopPerformersAboveNinety(filtered: seq<Tracked>): (top: seq<Tracked>)
    ensures |top| <= 5
    ensures forall i :: 0 <= i < |top| ==> CategoryOf(top[i].overallScore) == Excellent
    ensures forall i, j :: 0 <= i < j < |top| ==> top[i].overallScore >= top[j].overallScore
    ensures |top| == Min(5, |Seqs.Filter(filtered, AboveNinety())|)
    ensures multiset(top) <= multiset(filtered)
  {
    var above := Seqs.Filter(RankedDesc(filtered), AboveNinety());
    RankedAboveNinety(filtered);
    AboveNinetyFromRoster(filtered);
    var top := above[..Min(5, |above|)];
    assert above == top + above[|top|..];
    top
  }

  /** Nobody left off the corrected card scores higher than someone on it. */
  lemma TopAboveNinetyAreTheBest(filtered: seq<Tracked>, j: nat, k: nat)
    requires j < |filtered| && k < |TopPerformersAboveNinety(filtered)|
    requires filtered[j].overallScore > TopPerformersAboveNinety(filtered)[k].overallScore
    ensures filtered[j] in TopPerformersAboveNinety(filtered)
  {
    var above := Seqs.Filter(RankedDesc(filtered), AboveNinety());
    var top := TopPerformersAboveNinety(filtered);
    RankedAboveNinety(filtered);
    AboveNinetyFromRoster(filtered);
    assert top == above[..|top|];
    assert AboveNinety()(filtered[j]);
    assert filtered[j] in multiset(Seqs.Filter(filtered, AboveNinety()));
    var m :| 0 <= m < |above| && above[m] == filtered[j];
    HigherScoreComesFirst(above, m, k);
    assert top[m] == filtered[j];
  }

  /** Those scoring 90 or more, in ranked order: as many as in the roster, from the highest score down. */
  lemma RankedAboveNinety(filtered: seq<Tracked>)
    ensures var above := Seqs.Filter(RankedDesc(filtered), AboveNinety());
      && |above| == |Seqs.Filter(filtered, AboveNinety())|
      && (forall i :: 0 <= i < |above| ==> above[i].overallScore >= 90.0)
      && (forall i, j :: 0 <= i < j < |above| ==> above[i].overallScore >= above[j].overallScore)
  {
    var ranked := RankedDesc(filtered);
    var above := Seqs.Filter(ranked, AboveNinety());
    Seqs.FilterPermutation(ranked, filtered, AboveNinety());
    assert |multiset(above)| == |multiset(Seqs.Filter(filtered, AboveNinety()))|;
    assert Sorting.SortedBy(ranked, NegScore) by {
      assert forall i, j :: 0 <= i < j < |ranked| ==> NegScore(ranked[i]) <= NegScore(ranked[j]);
    }
    Sorting.FilterKeepsSorted(ranked, AboveNinety(), NegScore);
    assert forall i, j :: 0 <= i < j < |above| ==> NegScore(above[i]) <= NegScore(above[j]);
  }

  /** Those scoring 90 or more, in ranked order, are exactly the roster's students scoring 90 or more. */
  lemma AboveNinetyFromRoster(filtered: seq<Tracked>)
    ensures var above := Seqs.Filter(RankedDesc(filtered), AboveNinety());
      && multiset(above) == multiset(Seqs.Filter(filtered, AboveNinety()))
      && multiset(above) <= multiset(filtered)
  {
    Seqs.FilterPermutation(RankedDesc(filtered), filtered, AboveNinety());
    Seqs.FilterMultiset(filtered, AboveNinety());
  }
}

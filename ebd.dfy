/** The Sunday-school page: the classes with teacher, enrolment, attendance and current
    lesson topic, the attendance form, the search and the summary cards. Attendance is
    a whole percentage. */
module Ebd {
  import opened Collections
  import opened Text

  datatype StudyClass = StudyClass(id: nat, name: string, teacher: string, students: nat,
                                   attendance: nat, topic: string)

  /** The attendance form: the selected class (`None` while the select shows its
      placeholder), the ISO date and the lesson topic. */
  datatype AttendanceForm = AttendanceForm(classId: Option<nat>, date: string, topic: string)

  predicate IsComplete(f: AttendanceForm)
  {
    f.classId.Some? && f.date != "" && f.topic != ""
  }

  /** The classes after a submit: the selected class takes the topic, nothing else changes. */
  function ClassesAfterAttendance(classes: seq<StudyClass>, f: AttendanceForm): seq<StudyClass>
  {
    if !IsComplete(f) then classes
    else UpdateWhere(classes, (c: StudyClass) => c.id == f.classId.value,
                     (c: StudyClass) => c.(topic := f.topic))
  }

  /** The search: the name or the teacher contains the query, ignoring case. */
  function FilteredClasses(classes: seq<StudyClass>, query: string): seq<StudyClass>
  {
    Filter(classes, (c: StudyClass) => MatchesIgnoringCase(c.name, query) || MatchesIgnoringCase(c.teacher, query))
  }

  function StudentsOf(c: StudyClass): int { c.students }
  function AttendanceOf(c: StudyClass): int { c.attendance }

  /** The enrolled-students card. */
  function TotalStudents(classes: seq<StudyClass>): int
  {
    Sum(classes, StudentsOf)
  }

  /** The average-attendance card: the mean attendance rounded half up, as `Math.round`
      does for a non-negative mean. */
  function AverageAttendance(classes: seq<StudyClass>): int
    requires |classes| > 0
  {
    (2 * Sum(classes, AttendanceOf) + |classes|) / (2 * |classes|)
  }

  datatype BarColour = Green | Yellow | Red

  /** The colour of a class's attendance bar. */
  function AttendanceColour(attendance: int): (c: BarColour)
    ensures c == Green <==> attendance >= 90
    ensures c == Yellow <==> 75 <= attendance < 90
    ensures c == Red <==> attendance < 75
  {
    if attendance >= 90 then Green else if attendance >= 75 then Yellow else Red
  }

  // ---------------------------------------------------------------- lemmas

  /** A submit without a class, a date or a topic leaves the classes unchanged. */
  lemma IncompleteFormKeepsClasses(classes: seq<StudyClass>, f: AttendanceForm)
    requires f.classId.None? || f.date == "" || f.topic == ""
    ensures ClassesAfterAttendance(classes, f) == classes
  {
  }

  /** A submit changes only the topic of the selected class; its other fields, every other
      class, the order and the length stay. */
  lemma AttendanceTouchesOnlyTopic(classes: seq<StudyClass>, f: AttendanceForm)
    requires IsComplete(f)
    ensures var r := ClassesAfterAttendance(classes, f);
      |r| == |classes| &&
      forall i :: 0 <= i < |classes| ==>
        (classes[i].id == f.classId.value ==> r[i] == classes[i].(topic := f.topic)) &&
        (classes[i].id != f.classId.value ==> r[i] == classes[i])
  {
  }

  /** A submit leaves the student total and the average attendance as they were. */
  lemma AttendanceKeepsCards(classes: seq<StudyClass>, f: AttendanceForm)
    requires |classes| > 0
    ensures var r := ClassesAfterAttendance(classes, f);
      |r| > 0 && TotalStudents(r) == TotalStudents(classes) && AverageAttendance(r) == AverageAttendance(classes)
  {
    if IsComplete(f) {
      var p := (c: StudyClass) => c.id == f.classId.value;
      var g := (c: StudyClass) => c.(topic := f.topic);
      SumUpdateWhere(classes, p, g, StudentsOf);
      SumUpdateWhere(classes, p, g, AttendanceOf);
    }
  }

  /** The average is the mean rounded half up: it is within one half of the exact mean,
      and a mean exactly halfway between two whole numbers goes up. */
  lemma {:induction false} AverageRoundsHalfUp(classes: seq<StudyClass>)
    requires |classes| > 0
    ensures var a, s, n := AverageAttendance(classes), Sum(classes, AttendanceOf), |classes|;
      (2 * a - 1) * n <= 2 * s < (2 * a + 1) * n
  {
    var s, n := Sum(classes, AttendanceOf), |classes|;
    var a := AverageAttendance(classes);
    var x, d := 2 * s + n, 2 * n;
    assert x == d * (x / d) + x % d && 0 <= x % d < d;
    assert a == x / d;
    assert d * a <= x < d * a + d;
    assert (2 * a - 1) * n == d * a - n;
    assert (2 * a + 1) * n == d * a + n;
  }

  /** The average lies between the lowest and the highest class attendance. */
  lemma {:induction false} AverageWithinRange(classes: seq<StudyClass>, lo: int, hi: int)
    requires |classes| > 0
    requires forall i :: 0 <= i < |classes| ==> lo <= classes[i].attendance <= hi
    ensures lo <= AverageAttendance(classes) <= hi
  {
    SumBounds(classes, AttendanceOf, lo, hi);
    AverageRoundsHalfUp(classes);
    RoundedMeanWithin(Sum(classes, AttendanceOf), |classes|, AverageAttendance(classes), lo, hi);
  }

  /** A whole number within one half of a mean s/n lies between bounds of the mean. */
  lemma RoundedMeanWithin(s: int, n: int, a: int, lo: int, hi: int)
    requires n > 0 && n * lo <= s <= n * hi
    requires (2 * a - 1) * n <= 2 * s < (2 * a + 1) * n
    ensures lo <= a <= hi
  {
    assert (2 * lo - 1) * n == 2 * (n * lo) - n;
    assert (2 * hi + 1) * n == 2 * (n * hi) + n;
    if a < lo {
      MulMonotone(2 * a + 1, 2 * lo - 1, n);
      assert false;
    }
    if a > hi {
      MulMonotone(2 * hi + 1, 2 * a - 1, n);
      assert false;
    }
  }

  lemma MulMonotone(x: int, y: int, n: nat)
    requires x <= y
    ensures x * n <= y * n
  {
    assert y * n - x * n == (y - x) * n;
  }

  /** The search returns, in list order, the classes whose name or teacher holds the
      query; an empty query returns them all. */
  lemma SearchIsOrderedSelection(classes: seq<StudyClass>, query: string)
    ensures var r := FilteredClasses(classes, query);
      IsSubsequence(r, classes) &&
      (forall i :: 0 <= i < |r| ==> MatchesIgnoringCase(r[i].name, query) || MatchesIgnoringCase(r[i].teacher, query)) &&
      (forall i :: 0 <= i < |classes| && (MatchesIgnoringCase(classes[i].name, query) || MatchesIgnoringCase(classes[i].teacher, query))
         ==> classes[i] in r)
    ensures query == "" ==> FilteredClasses(classes, query) == classes
  {
    var p := (c: StudyClass) => MatchesIgnoringCase(c.name, query) || MatchesIgnoringCase(c.teacher, query);
    FilterIsSubsequence(classes, p);
    if query == "" {
      forall i | 0 <= i < |classes| ensures p(classes[i]) {
        EmptyQueryMatches(classes[i].name);
      }
      FilterKeepsAll(classes, p);
    }
  }

  // ---------------------------------------------------------------- page state

  const SeedClasses: seq<StudyClass> := [
    StudyClass(1, "Classe de Jovens", "Pr. Eduardo", 25, 85, "Atos dos Apóstolos"),
    StudyClass(2, "Classe de Adultos", "Pb. Marcos", 40, 92, "Epístolas Paulinas"),
    StudyClass(3, "Classe Infantil", "Tia Ana", 15, 100, "Heróis da Bíblia"),
    StudyClass(4, "Novos Convertidos", "Dc. Carlos", 12, 75, "Fundamentos da Fé")
  ]

  /** The seeded cards: 92 students and an average of 88%. */
  lemma SeedCards()
    ensures TotalStudents(SeedClasses) == 92 && AverageAttendance(SeedClasses) == 88
  {
  }

  class EbdPage {
    var classes: seq<StudyClass>

    /** The page never removes a class, so the average always has a divisor. */
    predicate Valid()
      reads this
    {
      |classes| > 0
    }

    constructor ()
      ensures classes == SeedClasses && Valid()
    {
      classes := SeedClasses;
    }

    /** The average-attendance card of the current classes. */
    function Average(): (a: int)
      reads this
      requires Valid()
      ensures (2 * a - 1) * |classes| <= 2 * Sum(classes, AttendanceOf) < (2 * a + 1) * |classes|
    {
      AverageRoundsHalfUp(classes);
      AverageAttendance(classes)
    }

    /** `handleAddAttendance`: record the lesson topic on the selected class. */
    method AddAttendance(f: AttendanceForm) returns (applied: bool)
      requires Valid()
      modifies this
      ensures applied == IsComplete(f)
      ensures classes == ClassesAfterAttendance(old(classes), f)
      ensures Valid()
      ensures TotalStudents(classes) == TotalStudents(old(classes)) && Average() == old(Average())
    {
      AttendanceKeepsCards(classes, f);
      applied := IsComplete(f);
      if applied {
        var id := f.classId.value;
        classes := UpdateWhere(classes, (c: StudyClass) => c.id == id, (c: StudyClass) => c.(topic := f.topic));
      }
    }
  }
}

/**
 * The entities of the grade book and the logic attached to them: the letter
 * grades a completed course may hold, their grade points, whether an ongoing
 * course is full, and a student's grade-point average.
 *
 * Grade points are integer tenths (3.7 is 37) and the average is integer
 * hundredths (3.25 is 325).
 */
module Models {
  import opened Queries

  // ---------------------------------------------------------------------------
  // Entities
  // ---------------------------------------------------------------------------

  /** A course a student has finished; `gradeAchieved` should be one of `GradeChoices`. */
  datatype CompletedCourse = CompletedCourse(
    id: int,
    name: string,
    department: string,
    description: string,
    gradeAchieved: string)

  /** A course that is still running; `remainingSeats` may be any integer. */
  datatype OngoingCourse = OngoingCourse(
    id: int,
    name: string,
    department: string,
    description: string,
    remainingSeats: int)

  /**
   * A student. `coursesEnrolled` and `coursesCompleted` are the student's rows
   * of the two many-to-many relations: ids of ongoing and completed courses.
   */
  datatype Student = Student(
    id: int,
    name: string,
    department: string,
    semester: int,
    coursesEnrolled: set<int>,
    coursesCompleted: set<int>)

  /** The sort keys of the default `ordering = ['name']`. */
  function CompletedName(c: CompletedCourse): string { c.name }
  function OngoingName(c: OngoingCourse): string { c.name }

  // ---------------------------------------------------------------------------
  // Grades and grade points
  // ---------------------------------------------------------------------------

  /** The allowed values of `gradeAchieved`, best first. */
  const GradeChoices: seq<string> := ["A+", "A", "A-", "B+", "B", "B-", "C+", "C", "C-", "D", "F"]

  /** Letter grade to grade points, in tenths. */
  const GradeMap: map<string, nat> := map[
    "A+" := 40, "A" := 40, "A-" := 37,
    "B+" := 33, "B" := 30, "B-" := 27,
    "C+" := 23, "C" := 20, "C-" := 17,
    "D" := 10, "F" := 0]

  /** The grade points of a completed course: a table lookup that falls back to 0. */
  function GradePoints(grade: string): (points: nat)
    ensures points <= 40
  {
    if grade in GradeMap then GradeMap[grade] else 0
  }

  /** A grade outside the choices gets 0.0: the lookup never fails. */
  lemma GradePointsDefault(grade: string)
    requires grade !in GradeChoices
    ensures GradePoints(grade) == 0
  {
  }

  lemma GradePointsTableA()
    ensures GradePoints("A+") == 40 && GradePoints("A") == 40 && GradePoints("A-") == 37
  {
  }

  lemma GradePointsTableB()
    ensures GradePoints("B+") == 33 && GradePoints("B") == 30 && GradePoints("B-") == 27
  {
  }

  lemma GradePointsTableCDF()
    ensures GradePoints("C+") == 23 && GradePoints("C") == 20 && GradePoints("C-") == 17
    ensures GradePoints("D") == 10 && GradePoints("F") == 0
  {
  }

  /** The table is defined on exactly the eleven grade choices, and they are distinct. */
  lemma GradeTableDomain()
    ensures GradeMap.Keys == set g | g in GradeChoices
    ensures |GradeChoices| == 11
    ensures forall i, j :: 0 <= i < j < |GradeChoices| ==> GradeChoices[i] != GradeChoices[j]
  {
  }

  /** Grade points never increase from A+ down to F. */
  lemma GradePointsNonIncreasing()
    ensures forall i, j :: 0 <= i <= j < |GradeChoices| ==>
      GradePoints(GradeChoices[i]) >= GradePoints(GradeChoices[j])
  {
  }

  // ---------------------------------------------------------------------------
  // Seats
  // ---------------------------------------------------------------------------

  const DefaultRemainingSeats: int := 30

  /** An ongoing course created without an explicit seat count. */
  function NewOngoingCourse(id: int, name: string, department: string, description: string): OngoingCourse {
    OngoingCourse(id, name, department, description, DefaultRemainingSeats)
  }

  /** A course is full once no seat is left; a negative count also counts as full. */
  predicate IsFull(c: OngoingCourse): (full: bool)
    ensures !full <==> c.remainingSeats >= 1
  {
    c.remainingSeats <= 0
  }

  lemma NewCourseNotFull(id: int, name: string, department: string, description: string)
    ensures NewOngoingCourse(id, name, department, description).remainingSeats == 30
    ensures !IsFull(NewOngoingCourse(id, name, department, description))
  {
  }

  // ---------------------------------------------------------------------------
  // Grade-point average
  // ---------------------------------------------------------------------------

  /** The grade points of one completed course. */
  function CoursePoints(c: CompletedCourse): nat {
    GradePoints(c.gradeAchieved)
  }

  /** The sum of the grade points (tenths) of `courses`. */
  function TotalPoints(courses: seq<CompletedCourse>): nat {
    SumBy(courses, CoursePoints)
  }

  /**
   * `num / den` rounded to the nearest integer, ties to the even neighbour
   * (the rule of Python's `round`, applied to the exact quotient).
   */
  function RoundHalfEven(num: nat, den: nat): nat
    requires den > 0
  {
    var down, rem := num / den, num % den;
    if 2 * rem > den || (2 * rem == den && down % 2 == 1) then down + 1 else down
  }

  /** The rounded quotient is a nearest integer to `num / den`, and a tie goes to the even one. */
  lemma RoundHalfEvenNearest(num: nat, den: nat)
    requires den > 0
    ensures 2 * num <= 2 * (den * RoundHalfEven(num, den)) + den
    ensures 2 * (den * RoundHalfEven(num, den)) <= 2 * num + den
    ensures 2 * (num % den) == den ==> RoundHalfEven(num, den) % 2 == 0
  {
    var down, rem := num / den, num % den;
    if 2 * rem > den || (2 * rem == den && down % 2 == 1) {
      RoundUpIsNearest(num, den, down, rem);
    } else {
      RoundDownIsNearest(num, den, down, rem);
    }
  }

  lemma RoundDownIsNearest(num: nat, den: nat, down: nat, rem: nat)
    requires den > 0 && down == num / den && rem == num % den && 2 * rem <= den
    ensures 2 * num <= 2 * (den * down) + den
    ensures 2 * (den * down) <= 2 * num + den
  {
    var lower := den * down;
    assert num == lower + rem;
  }

  lemma RoundUpIsNearest(num: nat, den: nat, down: nat, rem: nat)
    requires den > 0 && down == num / den && rem == num % den && 2 * rem >= den
    ensures 2 * num <= 2 * (den * (down + 1)) + den
    ensures 2 * (den * (down + 1)) <= 2 * num + den
  {
    var lower := den * down;
    assert num == lower + rem;
    Distrib(den, down, 1);
  }

  /**
   * The student's average grade in hundredths: 0 with no completed courses,
   * otherwise the mean grade points rounded to two decimal places.
   */
  function CalculateAverageGrade(completed: seq<CompletedCourse>): (hundredths: nat)
    ensures |completed| == 0 ==> hundredths == 0
    ensures |completed| > 0 ==>
      && 2 * (10 * TotalPoints(completed)) <= 2 * (|completed| * hundredths) + |completed|
      && 2 * (|completed| * hundredths) <= 2 * (10 * TotalPoints(completed)) + |completed|
    ensures hundredths <= 400
  {
    if |completed| == 0 then 0
    else
      TotalPointsBound(completed);
      var h := RoundHalfEven(10 * TotalPoints(completed), |completed|);
      RoundHalfEvenNearest(10 * TotalPoints(completed), |completed|);
      NearestBelow(|completed|, 10 * TotalPoints(completed), 400, h);
      h
  }

  lemma Distrib(n: int, a: int, b: int)
    ensures n * (a + b) == n * a + n * b
  {
  }

  lemma MulAtLeast(n: nat, k: nat)
    requires k >= 1
    ensures n * k >= n
  {
    Distrib(n, 1, k - 1);
  }

  /** A nearest integer to `num / n` does not exceed any integer bound on `num / n`. */
  lemma NearestBelow(n: nat, num: nat, bound: nat, h: nat)
    requires n > 0 && num <= n * bound
    requires 2 * (n * h) <= 2 * num + n
    ensures h <= bound
  {
    if h > bound {
      Distrib(n, bound, h - bound);
      MulAtLeast(n, h - bound);
    }
  }

  /** The only nearest integer to `(n * m) / n` is `m`. */
  lemma NearestOfExact(n: nat, m: nat, h: nat)
    requires n > 0
    requires 2 * (n * m) <= 2 * (n * h) + n
    requires 2 * (n * h) <= 2 * (n * m) + n
    ensures h == m
  {
    if h > m {
      Distrib(n, m, h - m);
      MulAtLeast(n, h - m);
    } else if h < m {
      Distrib(n, h, m - h);
      MulAtLeast(n, m - h);
    }
  }

  lemma TotalPointsBound(courses: seq<CompletedCourse>)
    ensures TotalPoints(courses) <= 40 * |courses|
  {
    SumByBound(courses, CoursePoints, 40);
  }

  /** The average does not depend on the order in which the courses come. */
  lemma AverageOrderIndependent(a: seq<CompletedCourse>, b: seq<CompletedCourse>)
    requires multiset(a) == multiset(b)
    ensures CalculateAverageGrade(a) == CalculateAverageGrade(b)
  {
    SumByPermutation(a, b, CoursePoints);
    assert |a| == |multiset(a)| == |multiset(b)| == |b|;
  }

  /** When every completed course has the same grade, the average is that grade's points. */
  lemma AverageUniform(courses: seq<CompletedCourse>, grade: string)
    requires |courses| > 0
    requires forall i :: 0 <= i < |courses| ==> courses[i].gradeAchieved == grade
    ensures CalculateAverageGrade(courses) == 10 * GradePoints(grade)
  {
    var n, p := |courses|, GradePoints(grade);
    SumByUniform(courses, CoursePoints, p);
    assert 10 * (p * n) == n * (10 * p);
    NearestOfExact(n, 10 * p, CalculateAverageGrade(courses));
  }

  /** Completed courses graded A, B and C average 3.00. */
  lemma AverageExample(id: int, department: string, description: string)
    ensures CalculateAverageGrade([
      CompletedCourse(id, "Algebra", department, description, "A"),
      CompletedCourse(id, "Biology", department, description, "B"),
      CompletedCourse(id, "Chemistry", department, description, "C")]) == 300
  {
    var courses := [
      CompletedCourse(id, "Algebra", department, description, "A"),
      CompletedCourse(id, "Biology", department, description, "B"),
      CompletedCourse(id, "Chemistry", department, description, "C")];
    assert courses[2..][1..] == [];
    assert SumBy(courses[2..], CoursePoints) == 20;
    assert courses[1..][1..] == courses[2..];
    assert SumBy(courses[1..], CoursePoints) == 50;
    assert TotalPoints(courses) == 90;
    NearestOfExact(3, 300, CalculateAverageGrade(courses));
  }
}

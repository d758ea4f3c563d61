/**
 * The persisted rows as an immutable value, and the reads the views make of
 * them: all rows of a table in the default name order, a student by id, and
 * a student's related courses through the two many-to-many relations.
 */
module Storage {
  import opened Wrappers
  import opened Queries
  import opened Models

  /** The three tables, each in storage order. */
  datatype Store = Store(
    students: seq<Student>,
    ongoingCourses: seq<OngoingCourse>,
    completedCourses: seq<CompletedCourse>)

  /** Ids are primary keys: no two rows of the same table share one. */
  ghost predicate WellFormed(db: Store) {
    && (forall i, j :: 0 <= i < j < |db.students| ==> db.students[i].id != db.students[j].id)
    && (forall i, j :: 0 <= i < j < |db.ongoingCourses| ==>
          db.ongoingCourses[i].id != db.ongoingCourses[j].id)
    && (forall i, j :: 0 <= i < j < |db.completedCourses| ==>
          db.completedCourses[i].id != db.completedCourses[j].id)
  }

  /** Every ongoing course, in name order. */
  function AllOngoingCourses(db: Store): (r: seq<OngoingCourse>)
    ensures SortedBy(r, OngoingName)
    ensures multiset(r) == multiset(db.ongoingCourses)
  {
    SortBy(db.ongoingCourses, OngoingName)
  }

  /** Looking a student up by primary key: the student with that id, or None when there is none. */
  function GetStudent(db: Store, id: int): (r: Option<Student>)
    ensures r.Some? ==> r.value in db.students && r.value.id == id
    ensures r.None? ==> forall i :: 0 <= i < |db.students| ==> db.students[i].id != id
  {
    match FirstWhere(db.students, (s: Student) => s.id == id)
    case None => None
    case Some(k) => Some(db.students[k])
  }

  /** In a well-formed store the lookup finds the one student with that id. */
  lemma GetStudentUnique(db: Store, s: Student)
    requires WellFormed(db) && s in db.students
    ensures GetStudent(db, s.id) == Some(s)
  {
    var k :| 0 <= k < |db.students| && db.students[k] == s;
    var r := GetStudent(db, s.id);
    if r.Some? {
      var j :| 0 <= j < |db.students| && db.students[j] == r.value;
      assert j == k;
    }
  }

  /**
   * The ongoing courses the student is enrolled in, in name order, each as
   * many times as it is stored.
   */
  function EnrolledCourses(db: Store, s: Student): (r: seq<OngoingCourse>)
    ensures SortedBy(r, OngoingName)
    ensures forall c ::
      multiset(r)[c] == (if c.id in s.coursesEnrolled then multiset(db.ongoingCourses)[c] else 0)
    ensures forall i :: 0 <= i < |r| ==> r[i] in db.ongoingCourses && r[i].id in s.coursesEnrolled
    ensures forall i :: 0 <= i < |db.ongoingCourses| && db.ongoingCourses[i].id in s.coursesEnrolled ==>
      db.ongoingCourses[i] in r
  {
    var related := Filter(db.ongoingCourses, (c: OngoingCourse) => c.id in s.coursesEnrolled);
    var r := SortBy(related, OngoingName);
    SameElements(r, related);
    r
  }

  /**
   * The completed courses of the student, in name order, each as many times
   * as it is stored.
   */
  function CompletedCourses(db: Store, s: Student): (r: seq<CompletedCourse>)
    ensures SortedBy(r, CompletedName)
    ensures forall c ::
      multiset(r)[c] == (if c.id in s.coursesCompleted then multiset(db.completedCourses)[c] else 0)
    ensures forall i :: 0 <= i < |r| ==> r[i] in db.completedCourses && r[i].id in s.coursesCompleted
    ensures forall i :: 0 <= i < |db.completedCourses| && db.completedCourses[i].id in s.coursesCompleted ==>
      db.completedCourses[i] in r
  {
    var related := Filter(db.completedCourses, (c: CompletedCourse) => c.id in s.coursesCompleted);
    var r := SortBy(related, CompletedName);
    SameElements(r, related);
    r
  }

  /** A row of a table whose ids are unique is stored at most once. */
  lemma {:induction false} StoredOnce<T>(rows: seq<T>, id: T -> int, x: T)
    requires forall i, j :: 0 <= i < j < |rows| ==> id(rows[i]) != id(rows[j])
    ensures multiset(rows)[x] <= 1
    decreases |rows|
  {
    if |rows| > 0 {
      assert rows == [rows[0]] + rows[1..];
      assert multiset(rows) == multiset{rows[0]} + multiset(rows[1..]);
      StoredOnce(rows[1..], id, x);
      if x == rows[0] {
        assert forall j :: 0 <= j < |rows[1..]| ==> rows[1..][j] != x by {
          forall j | 0 <= j < |rows[1..]|
            ensures rows[1..][j] != x
          {
            assert id(rows[0]) != id(rows[j + 1]);
          }
        }
        assert x !in multiset(rows[1..]);
      }
    }
  }

  /**
   * In a well-formed store each of a student's completed courses is counted
   * once, and so is each enrolled course.
   */
  lemma CoursesListedOnce(db: Store, s: Student, c: CompletedCourse, o: OngoingCourse)
    requires WellFormed(db)
    ensures multiset(CompletedCourses(db, s))[c] <= 1
    ensures multiset(EnrolledCourses(db, s))[o] <= 1
  {
    StoredOnce(db.completedCourses, CompletedId, c);
    StoredOnce(db.ongoingCourses, OngoingId, o);
  }

  function CompletedId(c: CompletedCourse): int { c.id }
  function OngoingId(c: OngoingCourse): int { c.id }
}

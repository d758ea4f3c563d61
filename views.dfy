/**
 * The seven read endpoints of the grade book. Each takes the store and, for
 * the POST endpoints, the request body, and returns a response: the payload,
 * or a bad-request, not-found or server error with its message. No endpoint
 * changes the store: the store is a value and every endpoint is a function
 * of it.
 */
module Views {
  import opened Wrappers
  import opened Text
  import opened Queries
  import opened Models
  import opened Storage

  // ---------------------------------------------------------------------------
  // Requests and responses
  // ---------------------------------------------------------------------------

  /** A value a request body field may carry. */
  datatype Value = Null | Bool(b: bool) | Int(i: int) | Str(s: string)

  /** A request body: field name to value. */
  type Body = map<string, Value>

  datatype Response<T> =
    | Ok(payload: T)
    | BadRequest(error: string)
    | NotFound(error: string)
    | ServerError(error: string)

  const StudentIdRequired: string := "student_id is required"
  const BothRequired: string := "Both student_id and course_name are required"
  const StudentNotFound: string := "Student not found"
  const IdNotANumber: string := "Field 'id' expected a number"

  function CourseNotFound(courseName: string): string {
    "Course \"" + courseName + "\" not found in completed courses"
  }

  /** `request.data.get(key)`: None when the field is absent. */
  function Field(body: Body, key: string): Option<Value> {
    if key in body then Some(body[key]) else None
  }

  /** Python truthiness; an absent field reads as None, which is falsy. */
  predicate Truthy(v: Option<Value>) {
    match v
    case None => false
    case Some(Null) => false
    case Some(Bool(b)) => b
    case Some(Int(i)) => i != 0
    case Some(Str(s)) => |s| > 0
  }

  /** Absent, None, False, 0 and "" all count as missing; every other value is present. */
  lemma MissingValues(v: Option<Value>)
    ensures !Truthy(None) && !Truthy(Some(Null)) && !Truthy(Some(Bool(false)))
    ensures !Truthy(Some(Int(0))) && !Truthy(Some(Str("")))
    ensures !Truthy(v) <==> v in {None, Some(Null), Some(Bool(false)), Some(Int(0)), Some(Str(""))}
  {
  }

  /** The integer an id lookup compares with: Python's `int` of the value, None where it raises. */
  function IdKey(v: Value): Option<int> {
    match v
    case Null => None
    case Bool(b) => Some(if b then 1 else 0)
    case Int(i) => Some(i)
    case Str(s) => ParseInt(s)
  }

  /** Python's `str` of the value, as used in a name lookup and in messages. */
  function PyStr(v: Value): string {
    match v
    case Null => "None"
    case Bool(b) => if b then "True" else "False"
    case Int(i) => IntToString(i)
    case Str(s) => s
  }

  // ---------------------------------------------------------------------------
  // Payloads
  // ---------------------------------------------------------------------------

  datatype StudentBasic = StudentBasic(id: int, name: string, department: string, semester: int)

  datatype StudentDetail = StudentDetail(
    id: int,
    name: string,
    department: string,
    semester: int,
    coursesEnrolled: seq<OngoingCourse>,
    coursesCompleted: seq<CompletedCourse>,
    averageGrade: nat)

  datatype AverageSummary = AverageSummary(studentId: Value, studentName: string, averageGrade: nat)

  datatype OngoingSummary = OngoingSummary(
    studentId: Value, studentName: string, ongoingCourses: seq<OngoingCourse>)

  datatype CompletedSummary = CompletedSummary(
    studentId: Value, studentName: string, completedCourses: seq<CompletedCourse>)

  datatype CourseGrade = CourseGrade(
    studentId: Value, studentName: string, courseName: string, grade: string, gradePoints: nat)

  function Basic(s: Student): StudentBasic {
    StudentBasic(s.id, s.name, s.department, s.semester)
  }

  function BasicName(b: StudentBasic): string { b.name }

  function Basics(students: seq<Student>): (r: seq<StudentBasic>)
    ensures |r| == |students|
    ensures forall i :: 0 <= i < |students| ==> r[i] == Basic(students[i])
  {
    seq(|students|, i requires 0 <= i < |students| => Basic(students[i]))
  }

  // ---------------------------------------------------------------------------
  // What a request asks for
  // ---------------------------------------------------------------------------

  /** The body's `student_id` is present and truthy, and converts to the id of stored student `s`. */
  ghost predicate RequestedStudent(db: Store, body: Body, s: Student) {
    && Truthy(Field(body, "student_id"))
    && IdKey(body["student_id"]) == Some(s.id)
    && s in db.students
  }

  /** The body's `student_id` is truthy but is not a number. */
  ghost predicate BadStudentId(body: Body) {
    Truthy(Field(body, "student_id")) && IdKey(body["student_id"]).None?
  }

  /** The body's `student_id` is truthy and a number, and no stored student has that id. */
  ghost predicate UnknownStudent(db: Store, body: Body) {
    && Truthy(Field(body, "student_id"))
    && IdKey(body["student_id"]).Some?
    && forall i :: 0 <= i < |db.students| ==> db.students[i].id != IdKey(body["student_id"]).value
  }

  /** Course `courses[i]` is the first, in the given order, whose name contains `query` ignoring case. */
  ghost predicate FirstMatchAt(courses: seq<CompletedCourse>, query: string, i: int) {
    && 0 <= i < |courses|
    && IContains(courses[i].name, query)
    && forall j :: 0 <= j < i ==> !IContains(courses[j].name, query)
  }

  /** The `name__icontains` condition of the course-grade lookup. */
  function NameMatches(query: string): CompletedCourse -> bool {
    (c: CompletedCourse) => IContains(c.name, query)
  }

  /** No course's name contains `query` ignoring case. */
  ghost predicate NoCourseMatches(courses: seq<CompletedCourse>, query: string) {
    forall i :: 0 <= i < |courses| ==> !IContains(courses[i].name, query)
  }

  /**
   * The guard and lookup every single-student endpoint starts with: a missing
   * or falsy id is a bad request, an id that is not a number raises, and an
   * id no student has is not found.
   */
  function LookupStudent(db: Store, body: Body, missing: string): (r: Response<Student>)
    ensures !Truthy(Field(body, "student_id")) ==> r == BadRequest(missing)
    ensures BadStudentId(body) ==> r == ServerError(IdNotANumber)
    ensures UnknownStudent(db, body) ==> r == NotFound(StudentNotFound)
    ensures r.Ok? ==> RequestedStudent(db, body, r.payload)
    ensures (exists s :: RequestedStudent(db, body, s)) ==> r.Ok?
  {
    var studentId := Field(body, "student_id");
    if !Truthy(studentId) then BadRequest(missing)
    else match IdKey(studentId.value)
      case None => ServerError(IdNotANumber)
      case Some(key) =>
        match GetStudent(db, key)
        case None => NotFound(StudentNotFound)
        case Some(s) => Ok(s)
  }

  // ---------------------------------------------------------------------------
  // Endpoints
  // ---------------------------------------------------------------------------

  /** GET students: every student's basic record, in name order. */
  function GetStudents(db: Store): (r: seq<StudentBasic>)
    ensures SortedBy(r, BasicName)
    ensures multiset(r) == multiset(Basics(db.students))
  {
    SortBy(Basics(db.students), BasicName)
  }

  /** GET ongoing courses: every ongoing course, in name order. */
  function GetOngoingCourses(db: Store): (r: seq<OngoingCourse>)
    ensures SortedBy(r, OngoingName)
    ensures multiset(r) == multiset(db.ongoingCourses)
  {
    AllOngoingCourses(db)
  }

  /** POST student details: the stored student with both course lists and the average. */
  function GetStudentDetails(db: Store, body: Body): (r: Response<StudentDetail>)
    ensures !Truthy(Field(body, "student_id")) ==> r == BadRequest(StudentIdRequired)
    ensures BadStudentId(body) ==> r.ServerError?
    ensures UnknownStudent(db, body) ==> r == NotFound(StudentNotFound)
    ensures (exists s :: RequestedStudent(db, body, s)) ==> r.Ok?
    ensures r.Ok? ==> exists s :: RequestedStudent(db, body, s) && r.payload == StudentDetail(
      s.id, s.name, s.department, s.semester,
      EnrolledCourses(db, s), CompletedCourses(db, s),
      CalculateAverageGrade(CompletedCourses(db, s)))
  {
    match LookupStudent(db, body, StudentIdRequired)
    case Ok(s) =>
      var completed := CompletedCourses(db, s);
      Ok(StudentDetail(s.id, s.name, s.department, s.semester,
        EnrolledCourses(db, s), completed, CalculateAverageGrade(completed)))
    case BadRequest(e) => BadRequest(e)
    case NotFound(e) => NotFound(e)
    case ServerError(e) => ServerError(e)
  }

  /** POST student average: the id as sent, the stored name and the average grade. */
  function GetStudentAverage(db: Store, body: Body): (r: Response<AverageSummary>)
    ensures !Truthy(Field(body, "student_id")) ==> r == BadRequest(StudentIdRequired)
    ensures BadStudentId(body) ==> r.ServerError?
    ensures UnknownStudent(db, body) ==> r == NotFound(StudentNotFound)
    ensures (exists s :: RequestedStudent(db, body, s)) ==> r.Ok?
    ensures r.Ok? ==> exists s :: RequestedStudent(db, body, s) && r.payload == AverageSummary(
      body["student_id"], s.name, CalculateAverageGrade(CompletedCourses(db, s)))
  {
    match LookupStudent(db, body, StudentIdRequired)
    case Ok(s) => Ok(AverageSummary(body["student_id"], s.name, CalculateAverageGrade(CompletedCourses(db, s))))
    case BadRequest(e) => BadRequest(e)
    case NotFound(e) => NotFound(e)
    case ServerError(e) => ServerError(e)
  }

  /** POST student ongoing courses: the id as sent, the stored name and the enrolled courses. */
  function GetStudentOngoingCourses(db: Store, body: Body): (r: Response<OngoingSummary>)
    ensures !Truthy(Field(body, "student_id")) ==> r == BadRequest(StudentIdRequired)
    ensures BadStudentId(body) ==> r.ServerError?
    ensures UnknownStudent(db, body) ==> r == NotFound(StudentNotFound)
    ensures (exists s :: RequestedStudent(db, body, s)) ==> r.Ok?
    ensures r.Ok? ==> exists s :: RequestedStudent(db, body, s) && r.payload == OngoingSummary(
      body["student_id"], s.name, EnrolledCourses(db, s))
  {
    match LookupStudent(db, body, StudentIdRequired)
    case Ok(s) => Ok(OngoingSummary(body["student_id"], s.name, EnrolledCourses(db, s)))
    case BadRequest(e) => BadRequest(e)
    case NotFound(e) => NotFound(e)
    case ServerError(e) => ServerError(e)
  }

  /** POST student completed courses: the id as sent, the stored name and the completed courses. */
  function GetStudentCompletedCourses(db: Store, body: Body): (r: Response<CompletedSummary>)
    ensures !Truthy(Field(body, "student_id")) ==> r == BadRequest(StudentIdRequired)
    ensures BadStudentId(body) ==> r.ServerError?
    ensures UnknownStudent(db, body) ==> r == NotFound(StudentNotFound)
    ensures (exists s :: RequestedStudent(db, body, s)) ==> r.Ok?
    ensures r.Ok? ==> exists s :: RequestedStudent(db, body, s) && r.payload == CompletedSummary(
      body["student_id"], s.name, CompletedCourses(db, s))
  {
    match LookupStudent(db, body, StudentIdRequired)
    case Ok(s) => Ok(CompletedSummary(body["student_id"], s.name, CompletedCourses(db, s)))
    case BadRequest(e) => BadRequest(e)
    case NotFound(e) => NotFound(e)
    case ServerError(e) => ServerError(e)
  }

  /** The text the course-name lookup searches for. */
  function CourseQuery(body: Body): string
    requires "course_name" in body
  {
    PyStr(body["course_name"])
  }

  /**
   * POST course grade: the first completed course of the student, in name
   * order, whose name contains `course_name` ignoring case, with its grade
   * and grade points.
   */
  function GetCourseGrade(db: Store, body: Body): (r: Response<CourseGrade>)
    ensures !Truthy(Field(body, "student_id")) || !Truthy(Field(body, "course_name")) ==>
      r == BadRequest(BothRequired)
    ensures Truthy(Field(body, "course_name")) && BadStudentId(body) ==> r.ServerError?
    ensures Truthy(Field(body, "course_name")) && UnknownStudent(db, body) ==> r == NotFound(StudentNotFound)
    ensures Truthy(Field(body, "course_name")) && (exists s :: RequestedStudent(db, body, s)) ==>
      r.Ok? || r == NotFound(CourseNotFound(CourseQuery(body)))
    ensures r.Ok? ==> Truthy(Field(body, "course_name")) && exists s, i ::
      && RequestedStudent(db, body, s)
      && FirstMatchAt(CompletedCourses(db, s), CourseQuery(body), i)
      && r.payload == CourseGrade(
        body["student_id"], s.name,
        CompletedCourses(db, s)[i].name,
        CompletedCourses(db, s)[i].gradeAchieved,
        GradePoints(CompletedCourses(db, s)[i].gradeAchieved))
    ensures r.NotFound? && r.error != StudentNotFound ==>
      && Truthy(Field(body, "course_name"))
      && r.error == CourseNotFound(CourseQuery(body))
      && exists s :: RequestedStudent(db, body, s) && NoCourseMatches(CompletedCourses(db, s), CourseQuery(body))
  {
    if !Truthy(Field(body, "student_id")) || !Truthy(Field(body, "course_name")) then
      BadRequest(BothRequired)
    else
      var query := CourseQuery(body);
      match LookupStudent(db, body, BothRequired)
      case Ok(s) =>
        var completed := CompletedCourses(db, s);
        (match FirstWhere(completed, NameMatches(query))
         case None => NotFound(CourseNotFound(query))
         case Some(i) =>
           var course := completed[i];
           Ok(CourseGrade(body["student_id"], s.name, course.name, course.gradeAchieved,
             GradePoints(course.gradeAchieved))))
      case BadRequest(e) => BadRequest(e)
      case NotFound(e) => NotFound(e)
      case ServerError(e) => ServerError(e)
  }

  /**
   * In a well-formed store, a request for an existing student none of whose
   * completed courses matches is answered not-found, naming the course.
   */
  lemma CourseGradeNoMatch(db: Store, body: Body, s: Student)
    requires WellFormed(db)
    requires Truthy(Field(body, "course_name"))
    requires RequestedStudent(db, body, s)
    requires NoCourseMatches(CompletedCourses(db, s), CourseQuery(body))
    ensures GetCourseGrade(db, body) == NotFound(CourseNotFound(CourseQuery(body)))
  {
    GetStudentUnique(db, s);
  }

  /**
   * In a well-formed store, a request for an existing student whose first
   * matching completed course, in name order, is at `i` is answered with
   * that course, its grade and its grade points.
   */
  lemma CourseGradeFound(db: Store, body: Body, s: Student, i: nat)
    requires WellFormed(db)
    requires Truthy(Field(body, "course_name"))
    requires RequestedStudent(db, body, s)
    requires FirstMatchAt(CompletedCourses(db, s), CourseQuery(body), i)
    ensures GetCourseGrade(db, body) == Ok(CourseGrade(body["student_id"], s.name,
      CompletedCourses(db, s)[i].name, CompletedCourses(db, s)[i].gradeAchieved,
      GradePoints(CompletedCourses(db, s)[i].gradeAchieved)))
  {
    GetStudentUnique(db, s);
    var completed := CompletedCourses(db, s);
    var found := FirstWhere(completed, NameMatches(CourseQuery(body)));
    assert NameMatches(CourseQuery(body))(completed[i]);
    assert found.Some? && found.value == i;
  }

  // ---------------------------------------------------------------------------
  // A worked request
  // ---------------------------------------------------------------------------

  const Calculus: CompletedCourse := CompletedCourse(10, "Calculus I", "Mathematics", "", "A")
  const Physics: CompletedCourse := CompletedCourse(11, "Physics II", "Physics", "", "B-")
  const Ada: Student := Student(1, "Ada", "Mathematics", 3, {}, {10, 11})
  const ExampleStore: Store := Store([Ada], [], [Physics, Calculus])
  const ExampleBody: Body := map["student_id" := Int(1), "course_name" := Str("calc")]

  lemma ExampleCompletedInNameOrder()
    ensures CompletedCourses(ExampleStore, Ada) == [Calculus, Physics]
  {
    assert Filter(ExampleStore.completedCourses, (c: CompletedCourse) => c.id in Ada.coursesCompleted)
      == [Physics, Calculus];
    assert NameLe(Calculus.name, Physics.name);
    assert SortBy([Physics, Calculus], CompletedName) == [Calculus, Physics];
  }

  lemma ExampleLookup()
    ensures Truthy(Field(ExampleBody, "student_id")) && Truthy(Field(ExampleBody, "course_name"))
    ensures CourseQuery(ExampleBody) == "calc"
    ensures ExampleBody["student_id"] == Int(1)
    ensures WellFormed(ExampleStore)
    ensures RequestedStudent(ExampleStore, ExampleBody, Ada)
  {
  }

  lemma ExampleNameMatches()
    ensures IContains("Calculus I", "calc")
  {
    assert LowerAll("calc") == "calc";
    assert LowerAll("Calculus I")[..4] == "calc";
  }

  lemma ExampleFirstMatch()
    ensures FirstMatchAt([Calculus, Physics], "calc", 0)
  {
    ExampleNameMatches();
  }

  /**
   * A student with "Calculus I" (A) and "Physics II" (B-) asks for "calc":
   * the answer is Calculus I, grade A, 4.0 points.
   */
  lemma CourseGradeExample()
    ensures GetCourseGrade(ExampleStore, ExampleBody) == Ok(CourseGrade(Int(1), "Ada", "Calculus I", "A", 40))
  {
    ExampleCompletedInNameOrder();
    ExampleLookup();
    ExampleFirstMatch();
    GradePointsTableA();
    CourseGradeFound(ExampleStore, ExampleBody, Ada, 0);
  }
}

# Student grades: a Dafny model of the grade logic and the query endpoints

The service keeps students, the ongoing courses they are enrolled in and the
completed courses they have finished with a letter grade. Its read endpoints
list students and ongoing courses, and return a student's details, average
grade, ongoing courses, completed courses, or the grade of one completed course
looked up by part of its name.

This project models that logic as pure functions over an immutable store:

- `wrappers.dfy`, module `Wrappers`: the `Option` type.
- `text.dfy`, module `Text`: ASCII case folding and substring search (the
  `icontains` lookup). It also holds the lexicographic name order behind
  `ordering = ['name']`, and Python's `int`/`str` conversions between integers
  and decimal text.
- `queries.dfy`, module `Queries`: sorting rows by name (insertion sort),
  filtering, and taking the first row that satisfies a condition.
- `models.dfy`, module `Models`: the entities (`CompletedCourse`,
  `OngoingCourse`, `Student`), the eleven grade choices and their grade
  points, `IsFull` and the default of 30 seats, and the grade-point average.
- `storage.dfy`, module `Storage`: the store holds three tables of rows. A
  student's many-to-many relations are sets of course ids. The module also has
  the reads the endpoints make: all ongoing courses in name order, a student by
  id, and a student's enrolled and completed courses in name order.
- `views.dfy`, module `Views`: request bodies (field name to value), the
  response type `Ok | BadRequest | NotFound | ServerError`, and the seven read
  endpoints.

Numbers are exact integers:

- Grade points are tenths: A- is 37.
- The average is hundredths: 3.25 is 325.
- The average is the exact mean rounded half-to-even to two decimal places.

Each endpoint is a function of the store and the request, so no endpoint can
change the store.

Request field values are `Null`, `Bool`, `Int` or `Str`, and "missing" follows
Python truthiness: an absent field, `None`, `False`, `0` and `""` are all
missing. The id lookup converts the value the way the id column does with
`int(...)`. A string that is not an optional sign followed by digits makes the
lookup raise. That exception is not caught by the view, and it is modelled as
`ServerError`. The course-name lookup searches for `str(...)` of the value.

`remaining_seats` is an unconstrained integer field, so the model lets it be
negative; `IsFull` holds for every value at or below zero. `semester` is
likewise any integer.

## Model

| member | source | states |
|---|---|---|
| `Models.GradePoints` | studentgrades/api/models.py:28-36 | the lookup is total and its grade points never exceed 4.0 |
| `Models.GradePointsDefault` | studentgrades/api/models.py:36 | a grade outside the eleven choices gets 0.0 rather than failing |
| `Models.GradePointsTableA` | studentgrades/api/models.py:31 | A+ and A are worth 4.0, A- 3.7 |
| `Models.GradePointsTableB` | studentgrades/api/models.py:32 | B+ is worth 3.3, B 3.0, B- 2.7 |
| `Models.GradePointsTableCDF` | studentgrades/api/models.py:33-34 | C+ is worth 2.3, C 2.0, C- 1.7, D 1.0, F 0.0 |
| `Models.GradeTableDomain` | studentgrades/api/models.py:21-35 | the table is defined on exactly the eleven `grade_achieved` choices, and the choices are distinct |
| `Models.GradePointsNonIncreasing` | studentgrades/api/models.py:30-35 | points never increase along A+, A, A-, …, D, F |
| `Models.IsFull` | studentgrades/api/models.py:43-45 | a course is full exactly when no seat remains, i.e. `remaining_seats <= 0`; a negative count is full |
| `Models.NewCourseNotFull` | studentgrades/api/models.py:41-45 | an ongoing course created with the default seat count has 30 seats and is not full |
| `Models.RoundHalfEvenNearest` | studentgrades/api/models.py:66 | the rounded quotient is a nearest integer to `num / den`, and an exact tie goes to the even neighbour |
| `Models.CalculateAverageGrade` | studentgrades/api/models.py:59-66 | with no completed courses the average is 0.0; otherwise it is a nearest hundredth to total points / count; it never exceeds 4.00 |
| `Queries.SumByPermutation` | studentgrades/api/models.py:65 | a sum over the rows is the same for any reordering of them, so the total grade points do not depend on course order |
| `Models.TotalPointsBound` | studentgrades/api/models.py:65 | the total grade points of n courses never exceed 4.0 × n |
| `Models.AverageOrderIndependent` | studentgrades/api/models.py:59-66 | the average does not depend on the order of the completed courses |
| `Models.AverageUniform` | studentgrades/api/models.py:65-66 | when every completed course has grade g, the average is exactly g's points |
| `Models.AverageExample` | studentgrades/api/models.py:59-66 | courses graded A, B and C average 3.00 |
| `Queries.SortBy` | studentgrades/api/models.py:15-16 | the result is in ascending name order and is a permutation of the rows |
| `Queries.FirstWhere` | studentgrades/api/views.py:201 | returns the first row that satisfies the condition, with no earlier row satisfying it, or None when no row does |
| `Text.ContainsIff` | studentgrades/api/views.py:201 | the substring search succeeds exactly when the needle occurs at some position of the text |
| `Text.IContainsIff` | studentgrades/api/views.py:201 | the `icontains` test holds exactly when the lower-cased query occurs in the lower-cased name |
| `Text.NameLeTotal` | studentgrades/api/models.py:15-16 | any two names are comparable in the name order |
| `Text.NameLeTransitive` | studentgrades/api/models.py:68-69 | the name order is transitive, so sorting by it is well defined |
| `Text.ParseIntRoundTrip` | studentgrades/api/views.py:97 | the decimal text of any integer converts back to that integer, so an id sent as text finds the same student |
| `Storage.AllOngoingCourses` | studentgrades/api/views.py:80 | every stored ongoing course appears exactly as often as stored, in name order |
| `Storage.GetStudent` | studentgrades/api/views.py:97 | returns a stored student with the requested id, or None exactly when no stored student has it |
| `Storage.GetStudentUnique` | studentgrades/api/views.py:97 | when ids are unique, the lookup returns the one student with that id |
| `Storage.EnrolledCourses` | studentgrades/api/views.py:146 | the result is in name order, and each stored ongoing course appears in it exactly as often as it is stored when its id is in the student's enrolled set, and not at all otherwise |
| `Storage.CompletedCourses` | studentgrades/api/views.py:173 | the result is in name order, and each stored completed course appears in it exactly as often as it is stored when its id is in the student's completed set, and not at all otherwise |
| `Storage.CoursesListedOnce` | studentgrades/api/models.py:59-65 | in a store with unique course ids, each of a student's completed and enrolled courses is listed once, so the average counts every completed course once |
| `Views.MissingValues` | studentgrades/api/views.py:90 | a field counts as missing exactly when it is absent, None, False, 0 or "" |
| `Views.LookupStudent` | studentgrades/api/views.py:88-104 | a missing id is a bad request, checked before any lookup; an id that is not a number raises; an id no student has is not found; otherwise the result is a student with that id |
| `Views.GetStudents` | studentgrades/api/views.py:69-74 | every student's id, name, department and semester, as a permutation of the stored students in ascending name order |
| `Views.GetOngoingCourses` | studentgrades/api/views.py:77-82 | every ongoing course, as a permutation of the stored ones in ascending name order |
| `Views.GetStudentDetails` | studentgrades/api/views.py:85-104 | bad request when `student_id` is missing; not found ("Student not found") for an unknown id; otherwise the stored student's fields, both course lists and the average |
| `Views.GetStudentAverage` | studentgrades/api/views.py:107-130 | the same error cases; on success, the id exactly as sent, the stored name and the student's average |
| `Views.GetStudentOngoingCourses` | studentgrades/api/views.py:133-157 | the same error cases; on success, the id as sent, the stored name and exactly the student's enrolled courses |
| `Views.GetStudentCompletedCourses` | studentgrades/api/views.py:160-184 | the same error cases; on success, the id as sent, the stored name and exactly the student's completed courses |
| `Views.GetCourseGrade` | studentgrades/api/views.py:187-220 | bad request when either field is missing. The student check comes before the course check. On success, the course is the first completed course in name order whose name contains the query ignoring case; the grade is that course's grade, the points are its grade points, and the id is echoed. A not-found that names the course means no completed course matches. An existing student always gets either the course or that not-found |
| `Views.CourseGradeNoMatch` | studentgrades/api/views.py:199-207 | for an existing student (ids unique) whose completed courses all fail to match, the answer is not-found naming the course |
| `Views.CourseGradeFound` | studentgrades/api/views.py:199-215 | for an existing student (ids unique) whose first matching completed course in name order is at position i, the answer is that course: the id as sent, the student's name, the course's name, grade and grade points |
| `Views.CourseGradeExample` | studentgrades/api/views.py:187-220 | "calc" against "Calculus I" (A) and "Physics II" (B-) answers Calculus I, grade A, 4.0 points |

## Left out

- Models.CalculateAverageGrade: rounds the exact rational mean half-to-even. The service rounds a binary float with `round(x, 2)`, and float representation error can decide some ties differently. The model does not reproduce binary floating point.
- Models.GradePoints: returns tenths of a point, not a float.
- Queries.SortBy: compares names by character code. The database's collation is not modelled. Rows with equal names come out in one fixed order; the database may choose another.
- Text.IContainsIff: case-insensitivity covers ASCII letters only. Unicode case folding by the database is not modelled.
- Views.LookupStudent: the id conversion accepts only an optional sign followed by ASCII digits. Python's `int` also skips surrounding whitespace and accepts underscores and non-ASCII digits; those inputs are treated as not a number here. The `ServerError` message is fixed, without the offending value.
- Request values that are floats, lists or objects are not modelled; a body field is `Null`, `Bool`, `Int` or `Str`.
- The persistence layer, many-to-many join tables and the `DoesNotExist` / `MultipleObjectsReturned` exceptions. The store is a value, and ids are assumed unique within each table where that matters (`Storage.WellFormed`).
- HTTP routing, status codes as framework objects and the response envelope. The response datatype stands for them: `BadRequest` is 400, `NotFound` is 404, and `ServerError` is an unhandled exception.
- `get_routes`: a fixed documentation list with no logic.
- Serializers: field projections, modelled by the payload datatypes. The admin site and URL configuration are not part of this model.
- `CharField` length limits and the `__str__` display methods.

/** The Students page: the search, grade and status filters over the
    student list and its two summary counts. */
module StudentsPage {
  import opened Text
  import opened Seqs

  datatype Student = Student(
    id: string, studentId: string, firstName: string, lastName: string, email: string,
    phone: string, grade: string, enrolledClasses: nat, status: string)

  /** The search matches first name, last name, email or student id,
      ignoring ASCII case; an empty grade or status filter matches all. */
  predicate StudentMatches(s: Student, search: string, gradeFilter: string, statusFilter: string) {
    var needle := ToLower(search);
    && (|| Contains(ToLower(s.firstName), needle) || Contains(ToLower(s.lastName), needle)
        || Contains(ToLower(s.email), needle) || Contains(ToLower(s.studentId), needle))
    && (gradeFilter == "" || s.grade == gradeFilter)
    && (statusFilter == "" || s.status == statusFilter)
  }

  function StudentFilter(search: string, gradeFilter: string, statusFilter: string): Student -> bool {
    s => StudentMatches(s, search, gradeFilter, statusFilter)
  }

  /** The list shown keeps exactly the students meeting all three conditions. */
  function FilterStudents(students: seq<Student>, search: string, gradeFilter: string, statusFilter: string)
    : (r: seq<Student>)
    ensures |r| <= |students|
    ensures forall s :: s in r <==> s in students && StudentMatches(s, search, gradeFilter, statusFilter)
  {
    FilterMembershipAll(students, StudentFilter(search, gradeFilter, statusFilter));
    Filter(students, StudentFilter(search, gradeFilter, statusFilter))
  }

  /** The filtered list keeps the students in their original order. */
  lemma FilterStudentsFacts(students: seq<Student>, search: string, gradeFilter: string, statusFilter: string)
    returns (idx: seq<nat>)
    ensures PicksOut(FilterStudents(students, search, gradeFilter, statusFilter), students, idx)
  {
    idx := FilterIsSubsequence(students, StudentFilter(search, gradeFilter, statusFilter));
  }

  /** With no search text and no filters every student is shown. */
  lemma EmptyFiltersKeepAll(students: seq<Student>)
    ensures FilterStudents(students, "", "", "") == students
  {
    forall k | 0 <= k < |students|
      ensures StudentFilter("", "", "")(students[k])
    {
      assert ToLower("") == "";
      ContainsEmpty(ToLower(students[k].firstName));
      assert StudentMatches(students[k], "", "", "");
    }
    FilterKeepsAll(students, StudentFilter("", "", ""));
  }

  /** Filtering an already filtered list changes nothing. */
  lemma FilterStudentsIdempotent(students: seq<Student>, search: string, gradeFilter: string, statusFilter: string)
    ensures FilterStudents(FilterStudents(students, search, gradeFilter, statusFilter), search, gradeFilter, statusFilter)
      == FilterStudents(students, search, gradeFilter, statusFilter)
  {
    var p := StudentFilter(search, gradeFilter, statusFilter);
    var once := Filter(students, p);
    forall k | 0 <= k < |once|
      ensures p(once[k])
    {
      FilterMembership(students, p, once[k]);
    }
    FilterKeepsAll(once, p);
  }

  predicate IsActiveStudent(s: Student) { s.status == "Active" }

  function EnrolledClasses(s: Student): int { s.enrolledClasses }

  function ActiveStudents(students: seq<Student>): (n: nat)
    ensures n <= |students|
  {
    |Filter(students, IsActiveStudent)|
  }

  /** The enrolment total is never negative, and 0 for no students. */
  function TotalEnrollments(students: seq<Student>): (t: int)
    ensures t >= 0
    ensures students == [] ==> t == 0
  {
    SumNonNegative(students, EnrolledClasses);
    Sum(students, EnrolledClasses)
  }

  /** Both summary counts are additive over lists. */
  lemma AggregatesSplit(a: seq<Student>, b: seq<Student>)
    ensures ActiveStudents(a + b) == ActiveStudents(a) + ActiveStudents(b)
    ensures TotalEnrollments(a + b) == TotalEnrollments(a) + TotalEnrollments(b)
  {
    FilterAppend(a, b, IsActiveStudent);
    SumAppend(a, b, EnrolledClasses);
  }

  /** Each student's enrolment count is part of the total, which is never
      negative. */
  lemma EnrollmentBoundsTotal(students: seq<Student>, i: nat)
    requires i < |students|
    ensures 0 <= students[i].enrolledClasses <= TotalEnrollments(students)
  {
    SumBoundsTerms(students, EnrolledClasses, i);
  }

  /** The page's sample list: three active students among four, ten
      enrolments in all. */
  const SampleStudents: seq<Student> := [
    Student("1", "STU-2024-001", "Emma", "Johnson", "emma.j@email.com", "(555) 123-4567", "10th", 3, "Active"),
    Student("2", "STU-2024-002", "Liam", "Smith", "liam.s@email.com", "(555) 234-5678", "11th", 2, "Active"),
    Student("3", "STU-2024-003", "Olivia", "Williams", "olivia.w@email.com", "(555) 345-6789", "9th", 4, "Active"),
    Student("4", "STU-2024-004", "Noah", "Brown", "noah.b@email.com", "(555) 456-7890", "12th", 1, "Inactive")
  ]

  lemma SampleSummary()
    ensures ActiveStudents(SampleStudents) == 3
    ensures TotalEnrollments(SampleStudents) == 10
  {
    var s := SampleStudents;
    var a, b, c, d := [s[0]], [s[1]], [s[2]], [s[3]];
    assert s == a + b + c + d;
    AggregatesSplit(a + b + c, d);
    AggregatesSplit(a + b, c);
    AggregatesSplit(a, b);
    Singleton(s[0]);
    Singleton(s[1]);
    Singleton(s[2]);
    Singleton(s[3]);
  }

  lemma Singleton(x: Student)
    ensures ActiveStudents([x]) == if IsActiveStudent(x) then 1 else 0
    ensures TotalEnrollments([x]) == x.enrolledClasses
  {
    assert [x][1..] == [] && [x][..0] == [];
    assert Filter([x], IsActiveStudent) == (if IsActiveStudent(x) then [x] else []) + Filter([], IsActiveStudent);
    assert Sum([x], EnrolledClasses) == Sum([], EnrolledClasses) + EnrolledClasses(x);
  }
}

/**
 * The Students page: the student list filtered by a search term and a status,
 * the at-risk and active counts in the insights banner, and the empty-state
 * panel. The list itself is never changed by the page.
 */
module Students {
  import opened Text
  import opened Lists

  datatype Status = Active | Inactive | AtRisk

  /** The status as the page writes it; the status filter compares against these names. */
  function StatusName(s: Status): string {
    match s
    case Active => "active"
    case Inactive => "inactive"
    case AtRisk => "at-risk"
  }

  /** A student record; the avatar URL is left out. */
  datatype Student = Student(
    id: nat,
    name: string,
    email: string,
    phone: string,
    joinDate: string,
    courses: nat,
    progress: nat,
    status: Status,
    aiRecommendations: nat,
    lastActivity: string)

  /** The list the page holds; it never changes. */
  const InitialStudents: seq<Student> := [
    Student(1, "Sarah Johnson", "sarah.johnson@email.com", "+1 (555) 123-4567", "2024-01-15", 4, 87, Active, 3, "2 hours ago"),
    Student(2, "Michael Chen", "michael.chen@email.com", "+1 (555) 234-5678", "2024-02-03", 2, 45, AtRisk, 5, "1 day ago"),
    Student(3, "Emma Wilson", "emma.wilson@email.com", "+1 (555) 345-6789", "2023-11-20", 6, 92, Active, 2, "30 minutes ago"),
    Student(4, "David Rodriguez", "david.rodriguez@email.com", "+1 (555) 456-7890", "2024-03-10", 1, 23, Inactive, 4, "1 week ago"),
    Student(5, "Lisa Park", "lisa.park@email.com", "+1 (555) 567-8901", "2024-01-28", 3, 78, Active, 1, "4 hours ago"),
    Student(6, "James Thompson", "james.thompson@email.com", "+1 (555) 678-9012", "2023-12-05", 5, 95, Active, 0, "1 hour ago")
  ]

  /** The search: the lower-cased term occurs in the lower-cased name or email. */
  predicate MatchesSearch(st: Student, searchTerm: string) {
    Includes(Lower(st.name), Lower(searchTerm)) || Includes(Lower(st.email), Lower(searchTerm))
  }

  predicate MatchesStatus(st: Student, selectedStatus: string) {
    selectedStatus == "All" || StatusName(st.status) == selectedStatus
  }

  predicate Shown(st: Student, searchTerm: string, selectedStatus: string) {
    MatchesSearch(st, searchTerm) && MatchesStatus(st, selectedStatus)
  }

  /** `filteredStudents`. */
  function FilteredStudents(students: seq<Student>, searchTerm: string, selectedStatus: string): seq<Student> {
    Filter(students, st => Shown(st, searchTerm, selectedStatus))
  }

  predicate IsAtRisk(st: Student) {
    st.status == AtRisk
  }

  predicate IsActive(st: Student) {
    st.status == Active
  }

  /** `atRiskStudents`, whose length the banner shows. */
  function AtRiskStudents(students: seq<Student>): seq<Student> {
    Filter(students, IsAtRisk)
  }

  /** `activeStudents`, whose length the banner shows. */
  function ActiveStudents(students: seq<Student>): seq<Student> {
    Filter(students, IsActive)
  }

  /** The "No students found" panel is rendered when the filtered list is empty. */
  predicate ShowsEmptyState(students: seq<Student>, searchTerm: string, selectedStatus: string) {
    |FilteredStudents(students, searchTerm, selectedStatus)| == 0
  }

  /** The filtered list keeps the students' original order. */
  lemma FilteredInOrder(students: seq<Student>, searchTerm: string, selectedStatus: string)
    ensures IsSubsequence(FilteredStudents(students, searchTerm, selectedStatus), students)
  {
    FilterSubsequence(students, st => Shown(st, searchTerm, selectedStatus));
  }

  /**
   * A student is listed exactly when they are in the list, the lower-cased
   * term occurs in their lower-cased name or email, and the selected status
   * is "All" or theirs.
   */
  lemma FilteredMember(students: seq<Student>, searchTerm: string, selectedStatus: string, st: Student)
    ensures st in FilteredStudents(students, searchTerm, selectedStatus) <==>
      st in students &&
      (Includes(Lower(st.name), Lower(searchTerm)) || Includes(Lower(st.email), Lower(searchTerm))) &&
      (selectedStatus == "All" || StatusName(st.status) == selectedStatus)
  {
    FilterMember(students, st => Shown(st, searchTerm, selectedStatus), st);
  }

  /** With an empty term and "All", every student is listed, as when the page opens. */
  lemma InitialFilterShowsAll(students: seq<Student>)
    ensures FilteredStudents(students, "", "All") == students
  {
    assert Lower([]) == [];
    forall i | 0 <= i < |students|
      ensures Shown(students[i], "", "All")
    {
      IncludesEmpty(Lower(students[i].name));
    }
    FilterKeepsAll(students, st => Shown(st, "", "All"));
  }

  /** Terms that differ only in letter case list the same students. */
  lemma SearchIgnoresCase(students: seq<Student>, term1: string, term2: string, selectedStatus: string)
    requires SameUpToCase(term1, term2)
    ensures FilteredStudents(students, term1, selectedStatus) == FilteredStudents(students, term2, selectedStatus)
  {
    SameUpToCaseIff(term1, term2);
    FilterCongruent(students, st => Shown(st, term1, selectedStatus), st => Shown(st, term2, selectedStatus));
  }

  /** Choosing a particular status lists a subsequence of what "All" lists for the same term. */
  lemma StatusNarrows(students: seq<Student>, searchTerm: string, selectedStatus: string)
    ensures IsSubsequence(FilteredStudents(students, searchTerm, selectedStatus),
                          FilteredStudents(students, searchTerm, "All"))
  {
    FilterStricter(students, st => Shown(st, searchTerm, selectedStatus), st => Shown(st, searchTerm, "All"));
  }

  /**
   * The banner's counts: the at-risk and active lists hold exactly the
   * students with that status, and no student is counted twice.
   */
  lemma StatusCounts(students: seq<Student>)
    ensures forall st :: st in AtRiskStudents(students) <==> st in students && st.status == AtRisk
    ensures forall st :: st in ActiveStudents(students) <==> st in students && st.status == Active
    ensures |AtRiskStudents(students)| + |ActiveStudents(students)| <= |students|
  {
    forall st
      ensures st in AtRiskStudents(students) <==> st in students && st.status == AtRisk
      ensures st in ActiveStudents(students) <==> st in students && st.status == Active
    {
      FilterMember(students, IsAtRisk, st);
      FilterMember(students, IsActive, st);
    }
    FilterDisjoint(students, IsAtRisk, IsActive);
  }

  /** A status list keeps each student of that status as often as they occur. */
  lemma StatusMultiplicity(students: seq<Student>, st: Student)
    ensures multiset(AtRiskStudents(students))[st] == if st.status == AtRisk then multiset(students)[st] else 0
    ensures multiset(ActiveStudents(students))[st] == if st.status == Active then multiset(students)[st] else 0
  {
    FilterMultiset(students, IsAtRisk, st);
    FilterMultiset(students, IsActive, st);
  }

  /** On the page's own list the banner shows one student at risk and four active. */
  lemma InitialCounts(students: seq<Student>)
    requires students == InitialStudents
    ensures |AtRiskStudents(students)| == 1 && |ActiveStudents(students)| == 4
  {
    assert AtRiskStudents(students) == [students[1]];
    assert ActiveStudents(students) == [students[0], students[2], students[4], students[5]];
  }

  /** The empty-state panel appears exactly when no student passes both tests. */
  lemma EmptyStateIff(students: seq<Student>, searchTerm: string, selectedStatus: string)
    ensures ShowsEmptyState(students, searchTerm, selectedStatus) <==>
      forall i :: 0 <= i < |students| ==>
        !(MatchesSearch(students[i], searchTerm) && MatchesStatus(students[i], selectedStatus))
  {
    FilterEmpty(students, st => Shown(st, searchTerm, selectedStatus));
  }
}

/**
 * The Courses page: the catalogue filtered by a search term and a category,
 * the AI-recommended courses and the banner showing the first three of them,
 * and the empty-state panel. The catalogue itself is never changed by the page.
 */
module Courses {
  import opened Text
  import opened Lists

  /**
   * A course record; the image URL is left out. The rating, a one-decimal
   * number such as 4.8, is kept in tenths.
   */
  datatype Course = Course(
    id: nat,
    title: string,
    description: string,
    instructor: string,
    students: nat,
    duration: string,
    ratingTenths: nat,
    category: string,
    aiRecommended: bool,
    progress: nat)

  /** The catalogue the page holds; it never changes. */
  const InitialCourses: seq<Course> := [
    Course(1, "AI Fundamentals", "Learn the basics of artificial intelligence and machine learning",
      "Dr. Sarah Chen", 156, "8 weeks", 48, "Technology", true, 85),
    Course(2, "Data Science Essentials", "Master data analysis, visualization, and statistical modeling",
      "Prof. Michael Rodriguez", 203, "10 weeks", 49, "Data Science", true, 92),
    Course(3, "Web Development Bootcamp", "Build modern web applications with React and Node.js",
      "Alex Johnson", 89, "12 weeks", 47, "Programming", false, 78),
    Course(4, "Digital Marketing Strategy", "Learn modern marketing techniques and analytics",
      "Emma Wilson", 134, "6 weeks", 46, "Marketing", true, 65),
    Course(5, "Business Analytics", "Transform data into actionable business insights",
      "Dr. James Thompson", 98, "8 weeks", 48, "Business", false, 45),
    Course(6, "UX/UI Design Principles", "Create user-centered digital experiences",
      "Lisa Park", 76, "6 weeks", 49, "Design", true, 88)
  ]

  /** How many recommended courses the banner shows. */
  const BannerSize: nat := 3

  /** The search: the lower-cased term occurs in the lower-cased title or description. */
  predicate MatchesSearch(c: Course, searchTerm: string) {
    Includes(Lower(c.title), Lower(searchTerm)) || Includes(Lower(c.description), Lower(searchTerm))
  }

  predicate MatchesCategory(c: Course, selectedCategory: string) {
    selectedCategory == "All" || c.category == selectedCategory
  }

  predicate Shown(c: Course, searchTerm: string, selectedCategory: string) {
    MatchesSearch(c, searchTerm) && MatchesCategory(c, selectedCategory)
  }

  /** `filteredCourses`. */
  function FilteredCourses(courses: seq<Course>, searchTerm: string, selectedCategory: string): seq<Course> {
    Filter(courses, c => Shown(c, searchTerm, selectedCategory))
  }

  predicate IsRecommended(c: Course) {
    c.aiRecommended
  }

  /** `aiRecommendedCourses`. */
  function AiRecommendedCourses(courses: seq<Course>): seq<Course> {
    Filter(courses, IsRecommended)
  }

  /** The recommendations banner: `aiRecommendedCourses.slice(0, 3)`. */
  function Banner(courses: seq<Course>): seq<Course> {
    Take(AiRecommendedCourses(courses), BannerSize)
  }

  /** The "No courses found" panel is rendered when the filtered list is empty. */
  predicate ShowsEmptyState(courses: seq<Course>, searchTerm: string, selectedCategory: string) {
    |FilteredCourses(courses, searchTerm, selectedCategory)| == 0
  }

  /** The filtered list keeps the catalogue's order. */
  lemma FilteredInOrder(courses: seq<Course>, searchTerm: string, selectedCategory: string)
    ensures IsSubsequence(FilteredCourses(courses, searchTerm, selectedCategory), courses)
  {
    FilterSubsequence(courses, c => Shown(c, searchTerm, selectedCategory));
  }

  /**
   * A course is listed exactly when it is in the catalogue, the lower-cased
   * term occurs in its lower-cased title or description, and the selected
   * category is "All" or its own.
   */
  lemma FilteredMember(courses: seq<Course>, searchTerm: string, selectedCategory: string, c: Course)
    ensures c in FilteredCourses(courses, searchTerm, selectedCategory) <==>
      c in courses &&
      (Includes(Lower(c.title), Lower(searchTerm)) || Includes(Lower(c.description), Lower(searchTerm))) &&
      (selectedCategory == "All" || c.category == selectedCategory)
  {
    FilterMember(courses, c => Shown(c, searchTerm, selectedCategory), c);
  }

  /** With an empty term and "All", every course is listed, as when the page opens. */
  lemma InitialFilterShowsAll(courses: seq<Course>)
    ensures FilteredCourses(courses, "", "All") == courses
  {
    assert Lower([]) == [];
    forall i | 0 <= i < |courses|
      ensures Shown(courses[i], "", "All")
    {
      IncludesEmpty(Lower(courses[i].title));
    }
    FilterKeepsAll(courses, c => Shown(c, "", "All"));
  }

  /** Terms that differ only in letter case list the same courses. */
  lemma SearchIgnoresCase(courses: seq<Course>, term1: string, term2: string, selectedCategory: string)
    requires SameUpToCase(term1, term2)
    ensures FilteredCourses(courses, term1, selectedCategory) == FilteredCourses(courses, term2, selectedCategory)
  {
    SameUpToCaseIff(term1, term2);
    FilterCongruent(courses, c => Shown(c, term1, selectedCategory), c => Shown(c, term2, selectedCategory));
  }

  /** Choosing a particular category lists a subsequence of what "All" lists for the same term. */
  lemma CategoryNarrows(courses: seq<Course>, searchTerm: string, selectedCategory: string)
    ensures IsSubsequence(FilteredCourses(courses, searchTerm, selectedCategory),
                          FilteredCourses(courses, searchTerm, "All"))
  {
    FilterStricter(courses, c => Shown(c, searchTerm, selectedCategory), c => Shown(c, searchTerm, "All"));
  }

  /** The empty-state panel appears exactly when no course passes both tests. */
  lemma EmptyStateIff(courses: seq<Course>, searchTerm: string, selectedCategory: string)
    ensures ShowsEmptyState(courses, searchTerm, selectedCategory) <==>
      forall i :: 0 <= i < |courses| ==>
        !(MatchesSearch(courses[i], searchTerm) && MatchesCategory(courses[i], selectedCategory))
  {
    FilterEmpty(courses, c => Shown(c, searchTerm, selectedCategory));
  }

  /**
   * The recommended list holds exactly the recommended courses of the
   * catalogue, in catalogue order, each as often as it occurs there.
   */
  lemma RecommendedExactly(courses: seq<Course>, c: Course)
    ensures c in AiRecommendedCourses(courses) <==> c in courses && c.aiRecommended
    ensures IsSubsequence(AiRecommendedCourses(courses), courses)
    ensures multiset(AiRecommendedCourses(courses))[c] == if c.aiRecommended then multiset(courses)[c] else 0
  {
    FilterMember(courses, IsRecommended, c);
    FilterSubsequence(courses, IsRecommended);
    FilterMultiset(courses, IsRecommended, c);
  }

  /**
   * The banner shows the first three recommended courses, or all of them
   * when there are fewer; every course it shows is a recommended one.
   */
  lemma BannerFirstThree(courses: seq<Course>)
    ensures |Banner(courses)| <= 3
    ensures |Banner(courses)| == 3 || Banner(courses) == AiRecommendedCourses(courses)
    ensures Banner(courses) == AiRecommendedCourses(courses)[..|Banner(courses)|]
    ensures forall c :: c in Banner(courses) ==> c in courses && c.aiRecommended
  {
    var rec := AiRecommendedCourses(courses);
    forall c | c in Banner(courses)
      ensures c in courses && c.aiRecommended
    {
      assert c in rec;
      FilterMember(courses, IsRecommended, c);
    }
  }

  /**
   * On the page's own catalogue four courses are recommended and the banner
   * shows courses 1, 2 and 4, leaving course 6 out.
   */
  lemma InitialBanner(courses: seq<Course>)
    requires courses == InitialCourses
    ensures |AiRecommendedCourses(courses)| == 4
    ensures |Banner(courses)| == 3
    ensures Banner(courses)[0].id == 1 && Banner(courses)[1].id == 2 && Banner(courses)[2].id == 4
  {
    assert AiRecommendedCourses(courses) == [courses[0], courses[1], courses[3], courses[5]];
  }
}

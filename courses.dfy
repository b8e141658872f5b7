/** The course list page: the courses are sorted by a key chosen from the header (`enrollments`,
    `name`, `rating` or `completion`) in the current order, filtered by a search term, and the header
    toggles the order. The sort is JavaScript's stable `Array.prototype.sort` on a copy, modelled as a
    stable insertion sort with the page's comparator. */
module Courses {
  import opened Common

  /** The fields the page reads; a missing number is None. */
  datatype Course = Course(name: string, enrolled: Option<int>, rating: Option<int>, completionRate: Option<int>)

  /** `x || 0`: a missing number counts as zero. */
  function OrZero(v: Option<int>): int {
    if v.Some? then v.value else 0
  }

  /** `localeCompare`, as code-unit order: negative, zero or positive. */
  function LexCompare(a: string, b: string): (r: int)
    ensures -1 <= r <= 1
    ensures r == 0 <==> a == b
  {
    if a == [] && b == [] then 0
    else if a == [] then -1
    else if b == [] then 1
    else if a[0] < b[0] then -1
    else if a[0] > b[0] then 1
    else
      var r := LexCompare(a[1..], b[1..]);
      assert r == 0 ==> a == [a[0]] + a[1..] && b == [b[0]] + b[1..];
      r
  }

  lemma {:induction false} LexCompareAntisymmetric(a: string, b: string)
    ensures LexCompare(b, a) == -LexCompare(a, b)
    decreases |a|
  {
    if a != [] && b != [] && a[0] == b[0] {
      LexCompareAntisymmetric(a[1..], b[1..]);
    }
  }

  /** The `switch (sortBy)` comparison of `a` against `b`; None for the `default` case. */
  function Comparison(sortBy: string, a: Course, b: Course): Option<int> {
    if sortBy == "enrollments" then Some(OrZero(b.enrolled) - OrZero(a.enrolled))
    else if sortBy == "name" then Some(LexCompare(a.name, b.name))
    else if sortBy == "rating" then Some(OrZero(b.rating) - OrZero(a.rating))
    else if sortBy == "completion" then Some(OrZero(b.completionRate) - OrZero(a.completionRate))
    else None
  }

  /** The comparator: negative puts `a` first. An unknown key compares everything equal; any order
      other than `asc` negates the comparison. */
  function Compare(sortBy: string, sortOrder: string, a: Course, b: Course): int {
    match Comparison(sortBy, a, b)
    case None => 0
    case Some(c) => if sortOrder == "asc" then c else -c
  }

  /** Swapping the arguments negates the comparison. */
  lemma CompareAntisymmetric(sortBy: string, sortOrder: string, a: Course, b: Course)
    ensures Compare(sortBy, sortOrder, b, a) == -Compare(sortBy, sortOrder, a, b)
  {
    if sortBy == "name" {
      LexCompareAntisymmetric(a.name, b.name);
    }
  }

  /** Adjacent courses are in comparator order. */
  predicate Sorted(sortBy: string, sortOrder: string, s: seq<Course>) {
    |s| <= 1 || (Compare(sortBy, sortOrder, s[0], s[1]) <= 0 && Sorted(sortBy, sortOrder, s[1..]))
  }

  /** `x` placed before the first course it does not compare after; ties keep `x` first. */
  function Insert(sortBy: string, sortOrder: string, x: Course, s: seq<Course>): seq<Course> {
    if s == [] then [x]
    else if Compare(sortBy, sortOrder, x, s[0]) <= 0 then [x] + s
    else [s[0]] + Insert(sortBy, sortOrder, x, s[1..])
  }

  /** The stable sort of a sequence. */
  function Sort(sortBy: string, sortOrder: string, s: seq<Course>): seq<Course> {
    if s == [] then [] else Insert(sortBy, sortOrder, s[0], Sort(sortBy, sortOrder, s[1..]))
  }

  /** `sortCourses(coursesToSort)`: a sorted copy; a missing list gives the empty list. */
  function SortCourses(sortBy: string, sortOrder: string, coursesToSort: Option<seq<Course>>): seq<Course> {
    if coursesToSort.None? then [] else Sort(sortBy, sortOrder, coursesToSort.value)
  }

  lemma {:induction false} InsertPermutes(sortBy: string, sortOrder: string, x: Course, s: seq<Course>)
    ensures multiset(Insert(sortBy, sortOrder, x, s)) == multiset{x} + multiset(s)
    decreases |s|
  {
    if s != [] && Compare(sortBy, sortOrder, x, s[0]) > 0 {
      InsertPermutes(sortBy, sortOrder, x, s[1..]);
      assert s == [s[0]] + s[1..];
    }
  }

  lemma {:induction false} InsertSorted(sortBy: string, sortOrder: string, x: Course, s: seq<Course>)
    requires Sorted(sortBy, sortOrder, s)
    ensures Sorted(sortBy, sortOrder, Insert(sortBy, sortOrder, x, s))
    ensures |Insert(sortBy, sortOrder, x, s)| > 0
    ensures var r := Insert(sortBy, sortOrder, x, s); r[0] == x || (s != [] && r[0] == s[0])
    decreases |s|
  {
    if s != [] && Compare(sortBy, sortOrder, x, s[0]) > 0 {
      InsertSorted(sortBy, sortOrder, x, s[1..]);
      CompareAntisymmetric(sortBy, sortOrder, x, s[0]);
      var r := Insert(sortBy, sortOrder, x, s[1..]);
      assert ([s[0]] + r)[1..] == r;
      if s[1..] != [] && r[0] == s[1..][0] {
        assert s[1] == s[1..][0];
      }
    }
  }

  /** The sort returns a permutation of its input, in comparator order. */
  lemma {:induction false} SortIsSortedPermutation(sortBy: string, sortOrder: string, s: seq<Course>)
    ensures multiset(Sort(sortBy, sortOrder, s)) == multiset(s)
    ensures Sorted(sortBy, sortOrder, Sort(sortBy, sortOrder, s))
  {
    if s != [] {
      SortIsSortedPermutation(sortBy, sortOrder, s[1..]);
      InsertPermutes(sortBy, sortOrder, s[0], Sort(sortBy, sortOrder, s[1..]));
      InsertSorted(sortBy, sortOrder, s[0], Sort(sortBy, sortOrder, s[1..]));
      assert s == [s[0]] + s[1..];
    }
  }

  /** A list already in comparator order is returned as it is. */
  lemma {:induction false} SortKeepsSorted(sortBy: string, sortOrder: string, s: seq<Course>)
    requires Sorted(sortBy, sortOrder, s)
    ensures Sort(sortBy, sortOrder, s) == s
  {
    if s != [] {
      SortKeepsSorted(sortBy, sortOrder, s[1..]);
      assert s == [s[0]] + s[1..];
    }
  }

  /** Sorting twice is sorting once: the page's second effect, which re-sorts the list the first one
      produced, changes nothing. */
  lemma SortIdempotent(sortBy: string, sortOrder: string, s: seq<Course>)
    ensures Sort(sortBy, sortOrder, Sort(sortBy, sortOrder, s)) == Sort(sortBy, sortOrder, s)
  {
    SortIsSortedPermutation(sortBy, sortOrder, s);
    SortKeepsSorted(sortBy, sortOrder, Sort(sortBy, sortOrder, s));
  }

  /** An unknown key keeps the input order. */
  lemma {:induction false} UnknownKeyKeepsOrder(sortBy: string, sortOrder: string, s: seq<Course>)
    requires sortBy !in {"enrollments", "name", "rating", "completion"}
    ensures Sort(sortBy, sortOrder, s) == s
  {
    if s != [] {
      UnknownKeyKeepsOrder(sortBy, sortOrder, s[1..]);
      assert s == [s[0]] + s[1..];
    }
  }

  /** `enrollments` with `asc` lists the most enrolled first, and the page's default order `desc` the
      least enrolled first (missing counts as zero). */
  lemma {:induction false} EnrollmentOrder(sortOrder: string, s: seq<Course>)
    requires Sorted("enrollments", sortOrder, s)
    ensures sortOrder == "asc" ==> forall i, j :: 0 <= i < j < |s| ==> OrZero(s[i].enrolled) >= OrZero(s[j].enrolled)
    ensures sortOrder != "asc" ==> forall i, j :: 0 <= i < j < |s| ==> OrZero(s[i].enrolled) <= OrZero(s[j].enrolled)
  {
    if |s| >= 2 {
      EnrollmentOrder(sortOrder, s[1..]);
      assert forall k :: 1 <= k < |s| ==> s[k] == s[1..][k - 1];
    }
  }

  /** The courses whose lower-cased name contains `lowered`, in list order. */
  function Matching(courses: seq<Course>, lowered: string): (r: seq<Course>)
    ensures forall c :: c in r <==> c in courses && Contains(ToLower(c.name), lowered)
    ensures multiset(r) <= multiset(courses)
  {
    if courses == [] then []
    else
      var rest := Matching(courses[1..], lowered);
      assert courses == [courses[0]] + courses[1..];
      if Contains(ToLower(courses[0].name), lowered) then [courses[0]] + rest else rest
  }

  /** The search effect: a blank term (after `trim`) shows every course; otherwise the courses whose
      lower-cased name contains the lower-cased term, untrimmed. The result is then sorted. */
  function VisibleCourses(courses: seq<Course>, searchTerm: string, sortBy: string, sortOrder: string): seq<Course> {
    if Trim(searchTerm) == "" then SortCourses(sortBy, sortOrder, Some(courses))
    else SortCourses(sortBy, sortOrder, Some(Matching(courses, ToLower(searchTerm))))
  }

  /** What the page shows: every course for a blank term, else exactly the matching ones, each as often
      as in the list, and in sort order. */
  lemma VisibleCoursesAre(courses: seq<Course>, searchTerm: string, sortBy: string, sortOrder: string)
    ensures var v := VisibleCourses(courses, searchTerm, sortBy, sortOrder);
            Sorted(sortBy, sortOrder, v)
            && (Trim(searchTerm) == "" ==> multiset(v) == multiset(courses))
            && (Trim(searchTerm) != "" ==>
                  multiset(v) == multiset(Matching(courses, ToLower(searchTerm)))
                  && forall c :: c in v <==> c in courses && Contains(ToLower(c.name), ToLower(searchTerm)))
  {
    SortIsSortedPermutation(sortBy, sortOrder, courses);
    var m := Matching(courses, ToLower(searchTerm));
    SortIsSortedPermutation(sortBy, sortOrder, m);
    forall c ensures c in Sort(sortBy, sortOrder, m) <==> c in m {
      assert c in Sort(sortBy, sortOrder, m) <==> c in multiset(Sort(sortBy, sortOrder, m));
    }
  }

  /** `handleSortChange(newSortBy)`: the new key and order. */
  function HandleSortChange(sortBy: string, sortOrder: string, newSortBy: string): (r: (string, string))
    ensures r.0 == newSortBy
    ensures sortBy != newSortBy ==> r.1 == "asc"
    ensures sortBy == newSortBy ==> r.1 == (if sortOrder == "asc" then "desc" else "asc")
  {
    var newSortOrder := if sortBy == newSortBy && sortOrder == "asc" then "desc" else "asc";
    (newSortBy, newSortOrder)
  }

  /** Clicking the same header twice restores the order, for the two orders the page uses. */
  lemma SameHeaderTwice(sortBy: string, sortOrder: string)
    requires sortOrder == "asc" || sortOrder == "desc"
    ensures var once := HandleSortChange(sortBy, sortOrder, sortBy);
            HandleSortChange(once.0, once.1, sortBy) == (sortBy, sortOrder)
  {
  }

  /** The instructor dashboard's comparison: the same, except that the enrolment count (its own
      `enrollments` field, carried here in `enrolled`) has no `|| 0` default. `None` is an absent field:
      `undefined` makes the subtraction NaN, which the sort treats as equal. The API never sends a
      null count, since it answers `course['enrollments'] or 0`. */
  function InstructorComparison(sortBy: string, a: Course, b: Course): Option<int> {
    if sortBy == "enrollments" then
      if a.enrolled.Some? && b.enrolled.Some? then Some(b.enrolled.value - a.enrolled.value) else Some(0)
    else Comparison(sortBy, a, b)
  }

  /** When both counts are present the two pages compare alike. */
  lemma InstructorComparisonAgrees(sortBy: string, a: Course, b: Course)
    requires a.enrolled.Some? && b.enrolled.Some?
    ensures InstructorComparison(sortBy, a, b) == Comparison(sortBy, a, b)
  {
  }
}

/**
 * The in-memory course store: one list of courses that the application
 * shares, category and id selectors over it, and the optimistic local
 * update that a save makes before its request goes out.
 */
module StoreService {
  import opened Wrappers
  import opened CourseModel

  const Beginner: string := "BEGINNER"
  const Advanced: string := "ADVANCED"

  // ---------------------------------------------------------------------
  // Selectors over a course list
  // ---------------------------------------------------------------------

  /**
   * `t` can be obtained from `s` by deleting entries: its entries occur in
   * `s` in the same relative order.
   */
  ghost predicate IsSubsequence(t: seq<Course>, s: seq<Course>)
    decreases |s|
  {
    if t == [] then true
    else if s == [] then false
    else (t[0] == s[0] && IsSubsequence(t[1..], s[1..])) || IsSubsequence(t, s[1..])
  }

  /**
   * `courses.filter(course => course.category == category)`: the courses of
   * that category, in list order, and no others.
   */
  function CoursesInCategory(courses: seq<Course>, category: string): (r: seq<Course>)
    ensures |r| <= |courses|
    ensures forall i :: 0 <= i < |r| ==> r[i].category == category
    ensures forall x :: x in r <==> x in courses && x.category == category
    ensures IsSubsequence(r, courses)
  {
    if courses == [] then []
    else
      var rest := CoursesInCategory(courses[1..], category);
      if courses[0].category == category then [courses[0]] + rest else rest
  }

  /**
   * The filter keeps every occurrence: a course of that category occurs in
   * the result as often as in the list, any other course not at all.
   */
  lemma {:induction false} CategoryCounts(courses: seq<Course>, category: string)
    ensures forall x :: multiset(CoursesInCategory(courses, category))[x]
                        == if x.category == category then multiset(courses)[x] else 0
    decreases |courses|
  {
    if courses != [] {
      CategoryCounts(courses[1..], category);
      assert courses == [courses[0]] + courses[1..];
    }
  }

  /**
   * `courses.findIndex(course => course.id == courseId)`: the first index
   * holding that id, or -1 when none does.
   */
  function FindIndex(courses: seq<Course>, courseId: int): (r: int)
    ensures -1 <= r < |courses|
    ensures r == -1 <==> forall j :: 0 <= j < |courses| ==> courses[j].id != courseId
    ensures 0 <= r ==> courses[r].id == courseId
    ensures 0 <= r ==> forall j :: 0 <= j < r ==> courses[j].id != courseId
  {
    if courses == [] then -1
    else if courses[0].id == courseId then 0
    else
      var k := FindIndex(courses[1..], courseId);
      if k == -1 then -1 else k + 1
  }

  /**
   * `courses.find(course => course.id == courseId)`: the first course with
   * that id, or nothing (the stream's `filter(course => !!course)` then
   * emits nothing).
   */
  function CourseWithId(courses: seq<Course>, courseId: int): (r: Option<Course>)
    ensures r.None? <==> forall x :: x in courses ==> x.id != courseId
    ensures r.Some? ==> exists i :: 0 <= i < |courses| && courses[i] == r.value
                                 && r.value.id == courseId
                                 && forall j :: 0 <= j < i ==> courses[j].id != courseId
  {
    var i := FindIndex(courses, courseId);
    if i == -1 then None else Some(courses[i])
  }

  // ---------------------------------------------------------------------
  // Optimistic update
  // ---------------------------------------------------------------------

  /**
   * The fields a save carries. An absent field (None) is one the changes
   * object does not have, so the spread keeps the old value.
   */
  datatype Changes = Changes(
    id: Option<int>,
    category: Option<string>,
    description: Option<string>,
    longDescription: Option<string>)

  function Pick<T>(change: Option<T>, current: T): T {
    match change
    case Some(v) => v
    case None => current
  }

  /** `{...course, ...changes}`: every field present in `changes` wins. */
  function Overlay(course: Course, changes: Changes): (r: Course)
    ensures changes.id.Some? ==> r.id == changes.id.value
    ensures changes.id.None? ==> r.id == course.id
    ensures changes.category.Some? ==> r.category == changes.category.value
    ensures changes.category.None? ==> r.category == course.category
    ensures changes.description.Some? ==> r.description == changes.description.value
    ensures changes.description.None? ==> r.description == course.description
    ensures changes.longDescription.Some? ==> r.longDescription == changes.longDescription.value
    ensures changes.longDescription.None? ==> r.longDescription == course.longDescription
  {
    Course(
      Pick(changes.id, course.id),
      Pick(changes.category, course.category),
      Pick(changes.description, course.description),
      Pick(changes.longDescription, course.longDescription))
  }

  /** Spreading the same changes twice is the same as spreading them once. */
  lemma OverlayIdempotent(course: Course, changes: Changes)
    ensures Overlay(Overlay(course, changes), changes) == Overlay(course, changes)
  {
  }

  /** Spreading an empty changes object leaves the course as it was. */
  lemma OverlayNothing(course: Course)
    ensures Overlay(course, Changes(None, None, None, None)) == course
  {
  }

  /**
   * The list `saveCourse` publishes: the first course with `courseId`
   * overlaid by `changes`, every other entry and the length untouched. When
   * no course has the id, `findIndex` gives -1 and the assignment to index
   * -1 adds a property that is not an element, so the elements stay as
   * they were.
   */
  function SavedCourses(courses: seq<Course>, courseId: int, changes: Changes): (r: seq<Course>)
    ensures |r| == |courses|
    ensures (forall x :: x in courses ==> x.id != courseId) ==> r == courses
    ensures forall i :: 0 <= i < |courses| && courses[i].id == courseId
                        && (forall j :: 0 <= j < i ==> courses[j].id != courseId)
                        ==> r == courses[i := Overlay(courses[i], changes)]
  {
    var courseIndex := FindIndex(courses, courseId);
    if courseIndex == -1 then courses
    else courses[courseIndex := Overlay(courses[courseIndex], changes)]
  }

  /**
   * A save that leaves the id alone can be found again by that id, and the
   * course found is the overlaid one.
   */
  lemma SaveThenSelect(courses: seq<Course>, courseId: int, changes: Changes)
    requires exists x :: x in courses && x.id == courseId
    requires changes.id.None? || changes.id == Some(courseId)
    ensures CourseWithId(SavedCourses(courses, courseId, changes), courseId)
            == Some(Overlay(CourseWithId(courses, courseId).value, changes))
  {
    var i := FindIndex(courses, courseId);
    var r := SavedCourses(courses, courseId, changes);
    assert r == courses[i := Overlay(courses[i], changes)];
    assert r[i].id == courseId;
    assert forall j :: 0 <= j < i ==> r[j] == courses[j];
    assert FindIndex(r, courseId) == i;
  }

  /** A save whose changes carry no category leaves both category views the same length. */
  lemma SaveKeepsCategorySizes(courses: seq<Course>, courseId: int, changes: Changes, category: string)
    requires changes.category.None?
    ensures |CoursesInCategory(SavedCourses(courses, courseId, changes), category)|
            == |CoursesInCategory(courses, category)|
  {
    var i := FindIndex(courses, courseId);
    if i != -1 {
      SameCategoriesSameSize(courses, SavedCourses(courses, courseId, changes), category);
    }
  }

  lemma {:induction false} SameCategoriesSameSize(s: seq<Course>, t: seq<Course>, category: string)
    requires |s| == |t|
    requires forall i :: 0 <= i < |s| ==> s[i].category == t[i].category
    ensures |CoursesInCategory(s, category)| == |CoursesInCategory(t, category)|
    decreases |s|
  {
    if s != [] {
      SameCategoriesSameSize(s[1..], t[1..], category);
    }
  }

  // ---------------------------------------------------------------------
  // Properties of the category selectors
  // ---------------------------------------------------------------------

  /**
   * The filter result is the longest category-only subsequence of the
   * list: every other subsequence made of courses of that category is
   * shorter, or is the filter result itself.
   */
  lemma {:induction false} CategoryIsLongestSubsequence(s: seq<Course>, category: string, t: seq<Course>)
    requires IsSubsequence(t, s)
    requires forall i :: 0 <= i < |t| ==> t[i].category == category
    ensures |t| <= |CoursesInCategory(s, category)|
    ensures |t| == |CoursesInCategory(s, category)| ==> t == CoursesInCategory(s, category)
    decreases |s|
  {
    if s == [] {
    } else if t == [] {
    } else {
      var rest := CoursesInCategory(s[1..], category);
      if t[0] == s[0] && IsSubsequence(t[1..], s[1..]) {
        CategoryIsLongestSubsequence(s[1..], category, t[1..]);
        if s[0].category == category {
          assert CoursesInCategory(s, category) == [s[0]] + rest;
          if |t| == |CoursesInCategory(s, category)| {
            assert t == [t[0]] + t[1..];
          }
        }
      } else {
        CategoryIsLongestSubsequence(s[1..], category, t);
      }
    }
  }

  /** Filtering twice by the same category changes nothing. */
  lemma {:induction false} CategoryIdempotent(s: seq<Course>, category: string)
    ensures CoursesInCategory(CoursesInCategory(s, category), category) == CoursesInCategory(s, category)
  {
    var r := CoursesInCategory(s, category);
    CategoryIsLongestSubsequence(r, category, r) by {
      SubsequenceReflexive(r);
    }
  }

  lemma {:induction false} SubsequenceReflexive(s: seq<Course>)
    ensures IsSubsequence(s, s)
    decreases |s|
  {
    if s != [] {
      SubsequenceReflexive(s[1..]);
    }
  }

  /**
   * The beginner and advanced views share no course, a course of any other
   * category is in neither, and together they hold at most the whole list.
   */
  lemma {:induction false} BeginnerAdvancedPartition(s: seq<Course>)
    ensures forall x :: x in CoursesInCategory(s, Beginner) ==> x !in CoursesInCategory(s, Advanced)
    ensures forall x :: x in s && x.category != Beginner && x.category != Advanced
                        ==> x !in CoursesInCategory(s, Beginner) && x !in CoursesInCategory(s, Advanced)
    ensures |CoursesInCategory(s, Beginner)| + |CoursesInCategory(s, Advanced)| <= |s|
    decreases |s|
  {
    if s != [] {
      BeginnerAdvancedPartition(s[1..]);
    }
  }

  // ---------------------------------------------------------------------
  // The store
  // ---------------------------------------------------------------------

  /** A new JavaScript array holding `courses`. */
  method NewArray(courses: seq<Course>) returns (a: array<Course>)
    ensures fresh(a)
    ensures a[..] == courses
  {
    a := new Course[|courses|](i requires 0 <= i < |courses| => courses[i]);
  }

  /**
   * The store holds the current course list the way the behaviour subject
   * does: a reference to an array that is replaced, never edited, once it
   * has been published. A subscriber that received an earlier array keeps
   * seeing the same contents.
   */
  class Store {
    var subject: array<Course>

    /** The list the subject currently holds. */
    function Courses(): seq<Course>
      reads this, subject
    {
      subject[..]
    }

    /** A new store holds the empty list. */
    constructor ()
      ensures Courses() == []
    {
      subject := new Course[0];
    }

    /**
     * `init`: once the response arrives, the held list becomes the payload's
     * values, whatever was held before. The earlier array is left as it was.
     */
    method Init(payload: Payload)
      modifies this
      ensures fresh(subject)
      ensures Courses() == ObjectValues(payload)
      ensures old(subject)[..] == old(subject[..])
    {
      subject := NewArray(ObjectValues(payload));
    }

    function FilterByCategory(category: string): (r: seq<Course>)
      reads this, subject
      ensures forall x :: x in r <==> x in Courses() && x.category == category
      ensures IsSubsequence(r, Courses())
      ensures forall x :: multiset(r)[x] == if x.category == category then multiset(Courses())[x] else 0
    {
      CategoryCounts(subject[..], category);
      CoursesInCategory(subject[..], category)
    }

    function SelectBeginnerCourses(): (r: seq<Course>)
      reads this, subject
      ensures forall x :: x in r <==> x in Courses() && x.category == Beginner
      ensures IsSubsequence(r, Courses())
      ensures forall x :: multiset(r)[x] == if x.category == Beginner then multiset(Courses())[x] else 0
    {
      FilterByCategory(Beginner)
    }

    function SelectAdvancedCourses(): (r: seq<Course>)
      reads this, subject
      ensures forall x :: x in r <==> x in Courses() && x.category == Advanced
      ensures IsSubsequence(r, Courses())
      ensures forall x :: multiset(r)[x] == if x.category == Advanced then multiset(Courses())[x] else 0
    {
      FilterByCategory(Advanced)
    }

    function SelectCourseById(courseId: int): (r: Option<Course>)
      reads this, subject
      ensures r.None? <==> forall x :: x in Courses() ==> x.id != courseId
      ensures r.Some? ==> exists i :: 0 <= i < |Courses()| && Courses()[i] == r.value
                                   && r.value.id == courseId
                                   && forall j :: 0 <= j < i ==> Courses()[j].id != courseId
    {
      CourseWithId(subject[..], courseId)
    }

    /**
     * The local half of `saveCourse`: copy the held array, overlay the first
     * course with `courseId` in the copy, and publish the copy. The array
     * published before is not written.
     */
    method SaveCourse(courseId: int, changes: Changes)
      modifies this
      ensures fresh(subject)
      ensures Courses() == SavedCourses(old(Courses()), courseId, changes)
      ensures old(subject)[..] == old(subject[..])
    {
      var courses := subject;
      var courseIndex := FindIndex(courses[..], courseId);
      var newCourses := new Course[courses.Length](i requires 0 <= i < courses.Length reads courses => courses[i]);
      if courseIndex != -1 {
        newCourses[courseIndex] := Overlay(courses[courseIndex], changes);
      }
      subject := newCourses;
    }
  }
}

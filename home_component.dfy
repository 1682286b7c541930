/**
 * The home page: one request for all courses, whose payload values feed
 * both the beginner list and the advanced list.
 */
module HomeComponent {
  import opened CourseModel
  import opened StoreService

  /** The two lists the home page shows. */
  datatype HomeView = HomeView(beginnerCourses: seq<Course>, advanceCourses: seq<Course>)

  /**
   * `ngOnInit`: the shared `courses$` is `Object.values(payload)`, and each
   * list filters that one value by its category.
   */
  function OnInit(payload: Payload): (r: HomeView)
    ensures forall x :: x in r.beginnerCourses <==> x in ObjectValues(payload) && x.category == Beginner
    ensures forall x :: x in r.advanceCourses <==> x in ObjectValues(payload) && x.category == Advanced
    ensures IsSubsequence(r.beginnerCourses, ObjectValues(payload))
    ensures IsSubsequence(r.advanceCourses, ObjectValues(payload))
    ensures forall x :: multiset(r.beginnerCourses)[x]
                        == if x.category == Beginner then multiset(ObjectValues(payload))[x] else 0
    ensures forall x :: multiset(r.advanceCourses)[x]
                        == if x.category == Advanced then multiset(ObjectValues(payload))[x] else 0
  {
    var courses := ObjectValues(payload);
    CategoryCounts(courses, Beginner);
    CategoryCounts(courses, Advanced);
    HomeView(CoursesInCategory(courses, Beginner), CoursesInCategory(courses, Advanced))
  }

  /**
   * The two lists are disjoint, leave out every course of another category,
   * and hold at most as many courses as the payload has.
   */
  lemma HomeListsPartition(payload: Payload)
    ensures forall x :: x in OnInit(payload).beginnerCourses ==> x !in OnInit(payload).advanceCourses
    ensures forall k :: k in payload && payload[k].category != Beginner && payload[k].category != Advanced
                        ==> payload[k] !in OnInit(payload).beginnerCourses
                            && payload[k] !in OnInit(payload).advanceCourses
    ensures |OnInit(payload).beginnerCourses| + |OnInit(payload).advanceCourses| <= |payload|
  {
    BeginnerAdvancedPartition(ObjectValues(payload));
  }

  /**
   * The home page shows what the store's selectors give once the store has
   * been initialised from the same payload.
   */
  method HomeMatchesStore(payload: Payload) returns (store: Store)
    ensures store.SelectBeginnerCourses() == OnInit(payload).beginnerCourses
    ensures store.SelectAdvancedCourses() == OnInit(payload).advanceCourses
  {
    store := new Store();
    store.Init(payload);
  }

  /**
   * The payload `{"1": {id: 1, BEGINNER}, "2": {id: 2, ADVANCED}}` gives a
   * beginner list holding just course 1 and an advanced list holding just
   * course 2.
   */
  lemma TwoCourseExample(c1: Course, c2: Course)
    requires c1.id == 1 && c1.category == Beginner
    requires c2.id == 2 && c2.category == Advanced
    ensures OnInit(map[1 := c1, 2 := c2]) == HomeView([c1], [c2])
  {
    TwoCourseValues(c1, c2);
  }

  lemma TwoCourseValues(c1: Course, c2: Course)
    ensures ObjectValues(map[1 := c1, 2 := c2]) == [c1, c2]
  {
    var payload: Payload := map[1 := c1, 2 := c2];
    assert payload.Keys == {1, 2};
    assert KeysBelow(payload.Keys, 1) == {};
    assert KeysBelow(payload.Keys, 2) == {1};
    ObjectValuesInKeyOrder(payload, 1);
    ObjectValuesInKeyOrder(payload, 2);
    var r := ObjectValues(payload);
    assert |r| == 2;
    assert r == [r[0], r[1]];
  }
}

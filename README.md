# Course store and home-page course lists

This project models the plain data logic of an Angular/RxJS course
application:

- `Store` (`rxjs-course-store/src/app/common/store.service.ts`): the
  application-wide holder of the current course list. It starts empty. `init`
  replaces the list with the values of the `/api/courses` payload. There are
  selectors by category and by id. `saveCourse` copies the list, overlays the
  changed fields onto the first course with the given id, and publishes the
  copy before its PUT request is sent.
- `HomeComponent.ngOnInit` (`src/app/home/home.component.ts`): takes the
  payload values once and filters them into a beginner list and an advanced
  list.

Modules:

- `Wrappers`: `Option`.
- `CourseModel`: the `Course` record, the payload map, and `Object.values`.
  The payload's keys are course ids. The model restricts them to array
  indices: integers from 0 to 2^32 - 2 (`ArrayIndex`). JavaScript lists such
  keys in ascending numeric order, so `Object.values` lists the courses in
  ascending key order.
- `StoreService`: the pure selectors over a list (`CoursesInCategory`,
  `FindIndex`, `CourseWithId`), the spread update (`Changes`, `Overlay`,
  `SavedCourses`), their lemmas, and the `Store` class.
- `HomeComponent`: the two home-page lists.

The behaviour subject is modelled as the field `Store.subject`, an
`array<Course>`. The array is replaced and never edited once published, so
the snapshot an earlier subscriber received stays the same. Stream emission
is reduced to "the field now holds this array". The `filter(course => !!course)`
after the id lookup becomes `None`: no value is emitted.

The source names the advanced selector `selectAdvancvedCourses`. The model
calls it `SelectAdvancedCourses`.

## Model

| member | source | states |
|---|---|---|
| `CourseModel.SortedKeys` | rxjs-course-store/src/app/common/store.service.ts:32 | the order `Object.values` visits integer keys: strictly ascending, each key exactly once, nothing else |
| `CourseModel.ObjectValues` | rxjs-course-store/src/app/common/store.service.ts:32 | `Object.values(payload)` has one entry per key, and entry i is the value stored at the i-th smallest key; so it holds every payload value and nothing else |
| `CourseModel.ObjectValuesInKeyOrder` | src/app/home/home.component.ts:31 | the value stored under key k stands in `Object.values` at the position equal to the number of smaller keys, which with the length fixes every entry |
| `StoreService.CoursesInCategory` | rxjs-course-store/src/app/common/store.service.ts:47 | the category filter holds exactly the courses of that category, is a subsequence of the list (original relative order), and is no longer than the list |
| `StoreService.CategoryIsLongestSubsequence` | rxjs-course-store/src/app/common/store.service.ts:47 | the filter result is the unique longest subsequence made only of courses of that category, so no course of that category is dropped |
| `StoreService.CategoryCounts` | rxjs-course-store/src/app/common/store.service.ts:47 | the filter keeps every occurrence: a course of that category occurs in the result exactly as often as in the list, and any other course does not occur at all |
| `StoreService.CategoryIdempotent` | rxjs-course-store/src/app/common/store.service.ts:47 | filtering an already filtered list by the same category returns it unchanged |
| `StoreService.BeginnerAdvancedPartition` | rxjs-course-store/src/app/common/store.service.ts:37-49 | the beginner and advanced selections are disjoint; a course of any other category is in neither; together they are no longer than the list |
| `StoreService.FindIndex` | rxjs-course-store/src/app/common/store.service.ts:61 | `findIndex` gives -1 exactly when no course has the id; otherwise an index whose course has the id, with no earlier course having it |
| `StoreService.CourseWithId` | rxjs-course-store/src/app/common/store.service.ts:53-54 | `find` gives nothing exactly when no course has the id; otherwise the course at the first position holding that id |
| `StoreService.Overlay` | rxjs-course-store/src/app/common/store.service.ts:65-68 | in the object spread, each field present in the changes takes the new value, and each absent field keeps the old one |
| `StoreService.OverlayIdempotent` | rxjs-course-store/src/app/common/store.service.ts:65-68 | applying the same changes twice gives the same course as applying them once |
| `StoreService.OverlayNothing` | rxjs-course-store/src/app/common/store.service.ts:65-68 | spreading an empty changes object leaves the course unchanged |
| `StoreService.SavedCourses` | rxjs-course-store/src/app/common/store.service.ts:61-68 | the published list has the old length. It equals the old list with only the first course of that id replaced by its overlay. It equals the old list when no course has the id |
| `StoreService.SaveThenSelect` | rxjs-course-store/src/app/common/store.service.ts:51-68 | after a save that keeps the id, selecting that id yields the overlaid course |
| `StoreService.SaveKeepsCategorySizes` | rxjs-course-store/src/app/common/store.service.ts:45-68 | a save whose changes carry no category leaves the size of every category selection unchanged |
| `StoreService.Store.constructor` | rxjs-course-store/src/app/common/store.service.ts:22 | the store starts with the empty list |
| `StoreService.Store.Init` | rxjs-course-store/src/app/common/store.service.ts:26-35 | the held list becomes a fresh array holding exactly the payload values, whatever was held before; the earlier array is not written |
| `StoreService.Store.FilterByCategory` | rxjs-course-store/src/app/common/store.service.ts:45-49 | the held courses of that category, each as often as it is held, in held order |
| `StoreService.Store.SelectBeginnerCourses` | rxjs-course-store/src/app/common/store.service.ts:37-39 | exactly the held courses with category `BEGINNER`, each as often as it is held, in held order |
| `StoreService.Store.SelectAdvancedCourses` | rxjs-course-store/src/app/common/store.service.ts:41-43 | exactly the held courses with category `ADVANCED`, each as often as it is held, in held order |
| `StoreService.Store.SelectCourseById` | rxjs-course-store/src/app/common/store.service.ts:51-56 | nothing exactly when no held course has the id, otherwise the held course at the first position holding that id |
| `StoreService.Store.SaveCourse` | rxjs-course-store/src/app/common/store.service.ts:58-70 | publishes a fresh array equal to `SavedCourses` of the old list; the previously published array is not written |
| `HomeComponent.OnInit` | src/app/home/home.component.ts:26-46 | both lists come from the same `Object.values(payload)`. Each holds exactly the payload courses of its category, each as often as it occurs among the values, in payload-value order |
| `HomeComponent.HomeListsPartition` | src/app/home/home.component.ts:35-45 | the beginner and advanced lists are disjoint, exclude any course of another category, and together hold at most as many courses as the payload |
| `HomeComponent.HomeMatchesStore` | src/app/home/home.component.ts:35-45 | the home page's lists equal the store's beginner and advanced selectors once the store is initialised from the same payload |
| `HomeComponent.TwoCourseExample` | src/app/home/home.component.ts:29-45 | the payload `{"1": beginner course 1, "2": advanced course 2}` gives beginner list `[course 1]` and advanced list `[course 2]` |

## Left out

- The network: `createHttpObservable`, the `fetch` GET behind `init` and `ngOnInit`, and the PUT in `saveCourse`. The model treats the response as an input (`Payload`), and it treats the local update as finished before the request. It says nothing about whether the request succeeds.
- RxJS semantics: `BehaviorSubject` emission, `shareReplay`, `tap` logging, and subscription timing. A stream is reduced to the value it carries.
- Payload keys that are not array indices: any key that is not the canonical decimal form of an integer from 0 to 2^32 - 2, for example negative integers, `"4294967295"` and above, `"01"`, `"1.0"` and non-numeric strings. JavaScript lists such keys after the array-index keys, in insertion order. The model does not represent them: `Payload` only has keys from 0 to 2^32 - 2.
- Course fields other than `id`, `category`, `description` and `longDescription`, such as `releasedAt`: the course model file is not part of this model. The spread in `saveCourse` copies every field of the old course and of `changes`, so any such field in `changes` would reach the saved course. The model does not represent those fields.
- JavaScript details of the spread: a changes property present with value `undefined` still overwrites. The model treats such a field as absent (`None`).
- When no course has the id, the source writes a stray property `-1` on the new array. That property is not an element, and the model does not represent it.
- Loose equality `course.id == courseId` with a string route parameter: ids are integers compared with `==`, and string-to-number coercion is not modelled.
- The component code around these operations: Angular dependency injection, lifecycle hooks, dialogs and forms.

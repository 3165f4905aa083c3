/** The state `App` in `App.jsx` keeps across pages: the theme, saved ids and enrolled courses. */
module Session {
  import opened Options
  import opened Seqs
  import opened Catalog
  import Storage

  function Without(id: int): int -> bool {
    x => x != id
  }

  /** The updater of `toggleSave`: a saved id is removed everywhere, an unsaved one is appended. */
  function ToggleSaved(saved: seq<int>, id: int): seq<int> {
    if id in saved then Filter(saved, Without(id)) else saved + [id]
  }

  /** Toggling flips whether the id is saved and leaves the count of every other id unchanged. */
  lemma ToggleSavedEffect(saved: seq<int>, id: int, x: int)
    ensures id in ToggleSaved(saved, id) <==> id !in saved
    ensures x != id ==> multiset(ToggleSaved(saved, id))[x] == multiset(saved)[x]
  {
    FilterMember(saved, Without(id), id);
    FilterMultiset(saved, Without(id), x);
  }

  /** An unsaved id goes at the end; removing a saved id keeps the others in their order. */
  lemma ToggleSavedOrder(saved: seq<int>, id: int)
    ensures id !in saved ==>
      (|ToggleSaved(saved, id)| == |saved| + 1 &&
       ToggleSaved(saved, id)[..|saved|] == saved && ToggleSaved(saved, id)[|saved|] == id)
    ensures id in saved ==> Subsequence(ToggleSaved(saved, id), saved)
  {
    FilterSubsequence(saved, Without(id));
  }

  /** Toggling an unsaved id twice restores the list exactly. */
  lemma ToggleTwiceAbsent(saved: seq<int>, id: int)
    requires id !in saved
    ensures ToggleSaved(ToggleSaved(saved, id), id) == saved
  {
    FilterConcat(saved, [id], Without(id));
    FilterAll(saved, Without(id));
  }

  /** Toggling a saved id twice on a duplicate-free list restores its contents, though the id
      moves to the end (see `ToggleTwiceReorders`). */
  lemma ToggleTwicePresent(saved: seq<int>, id: int)
    requires NoDup(saved) && id in saved
    ensures multiset(ToggleSaved(ToggleSaved(saved, id), id)) == multiset(saved)
  {
    var removed := Filter(saved, Without(id));
    FilterMember(saved, Without(id), id);
    assert ToggleSaved(saved, id) == removed;
    forall x ensures multiset(removed + [id])[x] == multiset(saved)[x] {
      FilterMultiset(saved, Without(id), x);
      if x == id {
        NoDupCount(saved, id);
      }
    }
  }

  lemma {:induction false} NoDupCount(s: seq<int>, x: int)
    requires NoDup(s) && x in s
    ensures multiset(s)[x] == 1
  {
    if s[0] == x {
      assert x !in s[1..];
    } else {
      NoDupCount(s[1..], x);
    }
    assert s == [s[0]] + s[1..];
  }

  /** The order is not restored in general: saving 5 again after unsaving it puts it last. */
  lemma ToggleTwiceReorders()
    ensures ToggleSaved(ToggleSaved([5, 6], 5), 5) == [6, 5]
  {
    assert Filter([5, 6], Without(5)) == [6] by {
      assert [5, 6][1..] == [6];
      assert [6][1..] == [];
    }
  }

  /** Toggling keeps a duplicate-free list duplicate-free. */
  lemma ToggleSavedNoDup(saved: seq<int>, id: int)
    requires NoDup(saved)
    ensures NoDup(ToggleSaved(saved, id))
  {
    if id in saved {
      FilterNoDup(saved, Without(id));
    }
  }

  lemma {:induction false} FilterNoDup(s: seq<int>, p: int -> bool)
    requires NoDup(s)
    ensures NoDup(Filter(s, p))
  {
    if s != [] {
      FilterNoDup(s[1..], p);
      FilterMember(s[1..], p, s[0]);
      assert s[0] !in s[1..];
      var r := Filter(s[1..], p);
      assert p(s[0]) ==> forall j :: 0 <= j < |r| ==> r[j] != s[0];
    }
  }

  /** Starting from nothing saved, toggling id 5 twice leaves nothing saved. */
  lemma ToggleFiveTwice()
    ensures ToggleSaved(ToggleSaved([], 5), 5) == []
  {
    ToggleTwiceAbsent([], 5);
  }

  /** Some course in the list carries this id. */
  predicate HasId(list: seq<Course>, id: int) {
    exists i :: 0 <= i < |list| && list[i].id == id
  }

  /** No two courses in the list share an id. */
  predicate UniqueIds(list: seq<Course>) {
    forall i, j :: 0 <= i < j < |list| ==> list[i].id != list[j].id
  }

  /** The updater of `enroll`: append the course unless one with its id is already enrolled. */
  function Enrolled(enrolled: seq<Course>, course: Course): seq<Course> {
    if FindById(enrolled, course.id).Some? then enrolled else enrolled + [course]
  }

  /** Enrolling appends exactly that course when its id is absent and changes nothing otherwise. */
  lemma EnrolledEffect(enrolled: seq<Course>, course: Course)
    ensures HasId(enrolled, course.id) ==> Enrolled(enrolled, course) == enrolled
    ensures !HasId(enrolled, course.id) ==> Enrolled(enrolled, course) == enrolled + [course]
  {
  }

  /** Enrolling twice is enrolling once: at most one course is ever added. */
  lemma EnrollTwice(enrolled: seq<Course>, course: Course)
    ensures Enrolled(Enrolled(enrolled, course), course) == Enrolled(enrolled, course)
    ensures |Enrolled(Enrolled(enrolled, course), course)| ==
      if HasId(enrolled, course.id) then |enrolled| else |enrolled| + 1
  {
    if FindById(enrolled, course.id).None? {
      assert (enrolled + [course])[|enrolled|].id == course.id;
    }
  }

  /** Enrolling keeps the enrolled courses unique by id. */
  lemma EnrolledUniqueIds(enrolled: seq<Course>, course: Course)
    requires UniqueIds(enrolled)
    ensures UniqueIds(Enrolled(enrolled, course))
  {
  }

  /** `CourseDetailRoute`: `courses.find((c) => c.id === id)` with `id = parseInt(params.id, 10)`,
      where `None` stands for `NaN`, which equals no id. */
  function RouteCourse(courses: seq<Course>, id: Option<int>): (r: Option<Course>)
    ensures r.Some? ==> id.Some? && r.value in courses && r.value.id == id.value
    ensures r.None? <==> id.None? || !HasId(courses, id.value)
  {
    match id
    case None => None
    case Some(n) => FindById(courses, n)
  }

  /** The state of `App`, each slice loaded once from storage and replaced by its setter. */
  class AppSession {
    var dark: bool
    var courses: seq<Course>
    var saved: seq<int>
    var enrolled: seq<Course>

    /** The `useDarkMode` and `useLocalState` initialisers. */
    constructor Load(theme: Storage.Read, prefersDark: Option<bool>,
                     coursesRead: Storage.Read, initialCourses: seq<Course>,
                     savedRead: Storage.Read, parseIds: string -> Option<seq<int>>,
                     enrolledRead: Storage.Read, parseCourses: string -> Option<seq<Course>>)
      ensures dark == Storage.AppDark(theme, prefersDark)
      ensures courses == Storage.LoadLocal(coursesRead, parseCourses, initialCourses)
      ensures saved == Storage.LoadLocal(savedRead, parseIds, [])
      ensures enrolled == Storage.LoadLocal(enrolledRead, parseCourses, [])
    {
      dark := Storage.AppDark(theme, prefersDark);
      courses := Storage.LoadLocal(coursesRead, parseCourses, initialCourses);
      saved := Storage.LoadLocal(savedRead, parseIds, []);
      enrolled := Storage.LoadLocal(enrolledRead, parseCourses, []);
    }

    /** `toggleSave(course)` */
    method ToggleSave(course: Course)
      modifies this
      ensures saved == ToggleSaved(old(saved), course.id)
      ensures dark == old(dark) && courses == old(courses) && enrolled == old(enrolled)
    {
      saved := ToggleSaved(saved, course.id);
    }

    /** `enroll(course)`; the navigation that follows is not modelled. */
    method Enroll(course: Course)
      modifies this
      ensures enrolled == Enrolled(old(enrolled), course)
      ensures dark == old(dark) && courses == old(courses) && saved == old(saved)
    {
      enrolled := Enrolled(enrolled, course);
    }

    /** The top bar's theme button: `setDark((d) => !d)`. */
    method ToggleTheme()
      modifies this
      ensures dark == !old(dark)
      ensures courses == old(courses) && saved == old(saved) && enrolled == old(enrolled)
    {
      dark := !dark;
    }

    /** The settings checkbox: `setDark(e.target.checked)`. */
    method SetDark(checked: bool)
      modifies this
      ensures dark == checked
      ensures courses == old(courses) && saved == old(saved) && enrolled == old(enrolled)
    {
      dark := checked;
    }

    /** What `CourseDetailRoute` hands to the detail page: the course and whether it is saved. */
    method CourseDetail(id: Option<int>) returns (course: Option<Course>, isSaved: bool)
      ensures course.Some? ==> id.Some? && course.value in courses && course.value.id == id.value
      ensures course.None? <==> id.None? || !HasId(courses, id.value)
      ensures isSaved <==> id.Some? && id.value in saved
    {
      course := RouteCourse(courses, id);
      isSaved := id.Some? && id.value in saved;
    }
  }
}

/** The `filtered` list of `Home` in `t.js`: field-by-field search, free-only, then category. */
module TQuery {
  import opened Text
  import opened Seqs
  import opened Catalog

  /** The `state` of `Home`. */
  datatype HomeState = HomeState(category: string, freeOnly: bool, query: string)

  const InitialState := HomeState("All", false, "")

  /** The query, lowered but not trimmed, is looked for in each field on its own. */
  predicate FieldHit(c: Course, query: string) {
    var q := Lower(query);
    Contains(Lower(c.title), q) || Contains(Lower(c.instructor), q) || Contains(Lower(c.category), q)
  }

  /** The three filters of `filtered`, all of which a course must pass. */
  predicate Keep(c: Course, st: HomeState) {
    && (Blank(st.query) || FieldHit(c, st.query))
    && (!st.freeOnly || c.price == 0)
    && (st.category == "All" || c.category == st.category)
  }

  function Matches(st: HomeState): Course -> bool {
    c => Keep(c, st)
  }

  function HitsQuery(query: string): Course -> bool {
    c => FieldHit(c, query)
  }

  predicate IsFree(c: Course) {
    c.price == 0
  }

  function InCategory(category: string): Course -> bool {
    (c: Course) => c.category == category
  }

  /** The `useMemo` body: `list` starts as a copy of the catalog and is reassigned filter by filter. */
  method Filtered(courses: seq<Course>, st: HomeState) returns (list: seq<Course>)
    ensures list == Filter(courses, Matches(st))
  {
    list := courses;
    if !Blank(st.query) {
      list := Filter(list, HitsQuery(st.query));
    }
    ghost var searched := list;
    if st.freeOnly {
      list := Filter(list, IsFree);
    }
    ghost var priced := list;
    if st.category != "All" {
      list := Filter(list, InCategory(st.category));
    }
    FilterWhen(courses, !Blank(st.query), HitsQuery(st.query), SearchStage(st.query));
    FilterWhen(searched, st.freeOnly, IsFree, FreeStage(st.freeOnly));
    FilterWhen(priced, st.category != "All", InCategory(st.category), CategoryStage(st.category));
    StagesCompose(courses, st);
  }

  function SearchStage(query: string): Course -> bool {
    c => Blank(query) || FieldHit(c, query)
  }

  function FreeStage(freeOnly: bool): Course -> bool {
    (c: Course) => !freeOnly || c.price == 0
  }

  function CategoryStage(category: string): Course -> bool {
    (c: Course) => category == "All" || c.category == category
  }

  function SearchAndFree(st: HomeState): Course -> bool {
    c => SearchStage(st.query)(c) && FreeStage(st.freeOnly)(c)
  }

  /** The three stages in a row keep exactly the courses that pass `Keep`. */
  lemma StagesCompose(courses: seq<Course>, st: HomeState)
    ensures Filter(Filter(Filter(courses, SearchStage(st.query)), FreeStage(st.freeOnly)), CategoryStage(st.category))
         == Filter(courses, Matches(st))
  {
    FilterFilter(courses, SearchStage(st.query), FreeStage(st.freeOnly), SearchAndFree(st));
    FilterFilter(courses, SearchAndFree(st), CategoryStage(st.category), Matches(st));
  }

  /** A course is listed exactly when it is in the catalog, one of its three fields holds the
      query (unless the query is blank), it is free when `freeOnly` is set, and its category matches. */
  lemma FilteredMember(courses: seq<Course>, st: HomeState, x: Course)
    ensures x in Filter(courses, Matches(st)) <==>
      && x in courses
      && (AllSpace(st.query)
          || Contains(Lower(x.title), Lower(st.query))
          || Contains(Lower(x.instructor), Lower(st.query))
          || Contains(Lower(x.category), Lower(st.query)))
      && (st.freeOnly ==> x.price == 0)
      && (st.category == "All" || x.category == st.category)
  {
    FilterMember(courses, Matches(st), x);
    BlankIff(st.query);
  }

  /** The list is always an order-preserving subsequence of the catalog, missing no passing copy. */
  lemma FilteredOrder(courses: seq<Course>, st: HomeState, x: Course)
    ensures Subsequence(Filter(courses, Matches(st)), courses)
    ensures multiset(Filter(courses, Matches(st)))[x] == if Keep(x, st) then multiset(courses)[x] else 0
  {
    FilterSubsequence(courses, Matches(st));
    FilterMultiset(courses, Matches(st), x);
  }

  /** The initial state lists the whole catalog in its own order. */
  lemma FilteredInitial(courses: seq<Course>)
    ensures Filter(courses, Matches(InitialState)) == courses
  {
    BlankIff(InitialState.query);
    FilterAll(courses, Matches(InitialState));
  }
}

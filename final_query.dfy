/** The results list of `HomePage` in `final.js`: one filter with five early-return conditions. */
module FinalQuery {
  import opened Text
  import opened Seqs
  import opened Catalog

  /** The `filters` state of `HomePage`; `sort` is held but never read by the results. */
  datatype Filters = Filters(category: string, price: string, level: string, sort: string, bestseller: bool)

  const DefaultFilters := Filters("All", "all", "All Levels", "relevance", false)

  /** The filter callback, one early `return false` per condition. */
  predicate Keep(c: Course, f: Filters, query: string) {
    if f.category != "All" && c.category != f.category then false
    else if f.price == "free" && c.price != 0 then false
    else if f.price == "paid" && c.price == 0 then false
    else if f.bestseller && !c.bestseller then false
    else if f.level != "All Levels" && c.level != f.level then false
    else if !Blank(query) && !SearchHit(c, query) then false
    else true
  }

  function Matches(f: Filters, query: string): Course -> bool {
    c => Keep(c, f, query)
  }

  /** `sampleCourses.filter(...)`, with the catalog as a parameter. */
  function Results(courses: seq<Course>, f: Filters, query: string): seq<Course> {
    Filter(courses, Matches(f, query))
  }

  /** A course is listed exactly when it is in the catalog and meets all five conditions. */
  lemma ResultsMember(courses: seq<Course>, f: Filters, query: string, x: Course)
    ensures x in Results(courses, f, query) <==>
      && x in courses
      && (f.category == "All" || x.category == f.category)
      && (f.price == "free" ==> x.price == 0)
      && (f.price == "paid" ==> x.price != 0)
      && (f.bestseller ==> x.bestseller)
      && (f.level == "All Levels" || x.level == f.level)
      && (AllSpace(query) || Contains(Lower(x.title + x.instructor + x.category), Lower(query)))
  {
    FilterMember(courses, Matches(f, query), x);
    BlankIff(query);
  }

  /** The results are the passing courses in catalog order, each as often as in the catalog. */
  lemma ResultsOrder(courses: seq<Course>, f: Filters, query: string, x: Course)
    ensures Subsequence(Results(courses, f, query), courses)
    ensures multiset(Results(courses, f, query))[x] == if Keep(x, f, query) then multiset(courses)[x] else 0
  {
    FilterSubsequence(courses, Matches(f, query));
    FilterMultiset(courses, Matches(f, query), x);
  }

  /** The sort selection has no effect on the results. */
  lemma SortIgnored(courses: seq<Course>, f: Filters, query: string, sort: string)
    ensures Results(courses, f.(sort := sort), query) == Results(courses, f, query)
  {
    FilterAgree(courses, Matches(f.(sort := sort), query), Matches(f, query));
  }

  /** A price tier other than "free" and "paid" filters nothing, exactly as "all" does. */
  lemma PriceAllFiltersNothing(courses: seq<Course>, f: Filters, query: string)
    requires f.price != "free" && f.price != "paid"
    ensures Results(courses, f, query) == Results(courses, f.(price := "all"), query)
  {
    FilterAgree(courses, Matches(f, query), Matches(f.(price := "all"), query));
  }

  /** The initial filters with a blank query list the whole catalog in its own order. */
  lemma ResultsDefault(courses: seq<Course>, query: string)
    requires AllSpace(query)
    ensures Results(courses, DefaultFilters, query) == courses
  {
    BlankIff(query);
    FilterAll(courses, Matches(DefaultFilters, query));
  }
}

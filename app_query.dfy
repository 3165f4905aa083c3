/** The results list of `HomePage` in `App.jsx`: search, category, popular, then a stable sort of a copy. */
module AppQuery {
  import opened Text
  import opened Seqs
  import opened Catalog

  /** The `filters` state of `HomePage`; the query is held beside it. */
  datatype Filters = Filters(category: string, sort: string, popular: bool)

  const DefaultFilters := Filters("All", "relevance", false)

  /** The three filters of the results computation, all of which a course must pass. */
  predicate Keep(c: Course, f: Filters, query: string) {
    && (Blank(query) || SearchHit(c, query))
    && (f.category == "" || f.category == "All" || c.category == f.category)
    && (!f.popular || c.bestseller)
  }

  function Matches(f: Filters, query: string): Course -> bool {
    c => Keep(c, f, query)
  }

  /** What the results computation returns: the courses that pass, stably sorted by `f.sort`. */
  function Results(courses: seq<Course>, f: Filters, query: string): seq<Course> {
    SortBy(Filter(courses, Matches(f, query)), SortOrderOf(f.sort))
  }

  /** `(c) => (c.title + c.instructor + c.category).toLowerCase().includes(q)` */
  function HitsQuery(query: string): Course -> bool {
    c => SearchHit(c, query)
  }

  /** `(c) => c.category === filters.category` */
  function InCategory(category: string): Course -> bool {
    (c: Course) => c.category == category
  }

  /** `(c) => c.bestseller` */
  predicate IsBestseller(c: Course) {
    c.bestseller
  }

  /** The `useMemo` body: `list` starts as a copy of `courses`, is narrowed filter by filter and is
      then sorted in place; `courses` itself cannot change, since nothing here may modify it. */
  method HomeResults(courses: array<Course>, f: Filters, query: string) returns (list: array<Course>)
    ensures fresh(list)
    ensures list[..] == Results(courses[..], f, query)
  {
    var l := courses[..];
    ghost var input := l;
    if !Blank(query) {
      l := Filter(l, HitsQuery(query));
    }
    ghost var searched := l;
    if f.category != "" && f.category != "All" {
      l := Filter(l, InCategory(f.category));
    }
    ghost var categorised := l;
    if f.popular {
      l := Filter(l, IsBestseller);
    }
    FilterWhen(input, !Blank(query), HitsQuery(query), SearchStage(query));
    FilterWhen(searched, f.category != "" && f.category != "All", InCategory(f.category), CategoryStage(f.category));
    FilterWhen(categorised, f.popular, IsBestseller, PopularStage(f.popular));
    FiltersCompose(input, f, query);
    list := SortedCopy(l, SortOrderOf(f.sort));
  }

  /** The sort runs on a fresh array holding the filtered list, never on the catalog itself. */
  method SortedCopy(l: seq<Course>, o: SortOrder) returns (list: array<Course>)
    ensures fresh(list)
    ensures list[..] == SortBy(l, o)
  {
    list := new Course[|l|](i requires 0 <= i < |l| => l[i]);
    assert list[..] == l;
    SortInPlace(list, o);
  }

  /** Each filter step, applied or skipped, is one filter with a predicate that holds when skipped. */
  function SearchStage(query: string): Course -> bool {
    c => Blank(query) || SearchHit(c, query)
  }

  function CategoryStage(category: string): Course -> bool {
    (c: Course) => category == "" || category == "All" || c.category == category
  }

  function PopularStage(popular: bool): Course -> bool {
    (c: Course) => !popular || c.bestseller
  }

  function SearchAndCategory(f: Filters, query: string): Course -> bool {
    c => SearchStage(query)(c) && CategoryStage(f.category)(c)
  }

  /** The three filter steps, each applied or skipped, keep exactly the courses that pass `Keep`. */
  lemma FiltersCompose(input: seq<Course>, f: Filters, query: string)
    ensures Filter(Filter(Filter(input, SearchStage(query)), CategoryStage(f.category)), PopularStage(f.popular))
         == Filter(input, Matches(f, query))
  {
    FilterFilter(input, SearchStage(query), CategoryStage(f.category), SearchAndCategory(f, query));
    FilterFilter(input, SearchAndCategory(f, query), PopularStage(f.popular), Matches(f, query));
  }

  /** Soundness and completeness: a course is listed exactly when it is in the catalog and passes
      the search (skipped for an all-white-space query), the category and the popular filters. */
  lemma ResultsMember(courses: seq<Course>, f: Filters, query: string, x: Course)
    ensures x in Results(courses, f, query) <==>
      && x in courses
      && (AllSpace(query) || Contains(Lower(x.title + x.instructor + x.category), Lower(query)))
      && (f.category == "" || f.category == "All" || x.category == f.category)
      && (f.popular ==> x.bestseller)
  {
    var kept := Filter(courses, Matches(f, query));
    SortByPermutation(kept, SortOrderOf(f.sort));
    assert x in Results(courses, f, query) <==> x in multiset(kept);
    FilterMember(courses, Matches(f, query), x);
    BlankIff(query);
  }

  /** The results are a permutation of the order-preserving subsequence of passing courses: every
      passing course appears exactly as often as in the catalog, every other course not at all. */
  lemma ResultsPermutation(courses: seq<Course>, f: Filters, query: string, x: Course)
    ensures Subsequence(Filter(courses, Matches(f, query)), courses)
    ensures multiset(Results(courses, f, query)) == multiset(Filter(courses, Matches(f, query)))
    ensures multiset(Results(courses, f, query))[x] == if Keep(x, f, query) then multiset(courses)[x] else 0
  {
    FilterSubsequence(courses, Matches(f, query));
    SortByPermutation(Filter(courses, Matches(f, query)), SortOrderOf(f.sort));
    FilterMultiset(courses, Matches(f, query), x);
  }

  /** Each sort key orders the whole list: descending rating, id and student count, ascending or
      descending price. */
  lemma ResultsOrdered(courses: seq<Course>, f: Filters, query: string, i: int, j: int)
    requires 0 <= i < j < |Results(courses, f, query)|
    ensures var r := Results(courses, f, query);
      && (f.sort == "rating" ==> r[i].ratingTenths >= r[j].ratingTenths)
      && (f.sort == "newest" ==> r[i].id >= r[j].id)
      && (f.sort == "students" ==> r[i].students >= r[j].students)
      && (f.sort == "price_low" ==> r[i].price <= r[j].price)
      && (f.sort == "price_high" ==> r[i].price >= r[j].price)
  {
    var o := SortOrderOf(f.sort);
    var r := Results(courses, f, query);
    SortBySorted(Filter(courses, Matches(f, query)), o);
    assert Rank(r[i], o) <= Rank(r[j], o);
    RankMeaning(r[i], r[j], f.sort);
  }

  /** Ties keep their input order: the listed courses of any one rank are, in order, exactly the
      passing courses of that rank as they stand in the catalog. */
  lemma ResultsStable(courses: seq<Course>, f: Filters, query: string, k: int)
    ensures var o := SortOrderOf(f.sort);
      Filter(Results(courses, f, query), SameRank(o, k)) == Filter(Filter(courses, Matches(f, query)), SameRank(o, k))
  {
    SortByStable(Filter(courses, Matches(f, query)), SortOrderOf(f.sort), k);
  }

  /** Under "relevance", and under any key the table does not know, the results keep catalog order. */
  lemma ResultsInCatalogOrder(courses: seq<Course>, f: Filters, query: string)
    requires f.sort != "rating" && f.sort != "newest" && f.sort != "students"
    requires f.sort != "price_low" && f.sort != "price_high"
    ensures Results(courses, f, query) == Filter(courses, Matches(f, query))
    ensures Subsequence(Results(courses, f, query), courses)
  {
    SortByRelevance(Filter(courses, Matches(f, query)));
    FilterSubsequence(courses, Matches(f, query));
  }

  /** With a blank query the initial filters keep every course. */
  lemma DefaultKeepsAll(courses: seq<Course>, query: string)
    requires AllSpace(query)
    ensures Filter(courses, Matches(DefaultFilters, query)) == courses
  {
    BlankIff(query);
    FilterAll(courses, Matches(DefaultFilters, query));
  }

  /** The initial filters with a blank query list the whole catalog in its own order. */
  lemma ResultsDefault(courses: seq<Course>, query: string)
    requires AllSpace(query)
    ensures Results(courses, DefaultFilters, query) == courses
  {
    DefaultKeepsAll(courses, query);
    SortByRelevance(courses);
  }
}

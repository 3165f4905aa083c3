/** How the three near-duplicate query engines relate to one another. */
module Variants {
  import opened Text
  import opened Seqs
  import opened Catalog
  import AppQuery
  import FinalQuery
  import TQuery

  /** A field-by-field hit (`t.js`) is always a hit on the concatenation (`App.jsx`, `final.js`). */
  lemma FieldHitIsSearchHit(c: Course, query: string)
    requires TQuery.FieldHit(c, query)
    ensures SearchHit(c, query)
  {
    var q := Lower(query);
    LowerConcat(c.title, c.instructor);
    LowerConcat(c.title + c.instructor, c.category);
    var t, i, g := Lower(c.title), Lower(c.instructor), Lower(c.category);
    assert Lower(c.title + c.instructor + c.category) == t + i + g;
    if Contains(t, q) {
      ContainsInLeft(t, i, q);
      ContainsInLeft(t + i, g, q);
    } else if Contains(i, q) {
      ContainsInRight(t, i, q);
      ContainsInLeft(t + i, g, q);
    } else {
      ContainsInRight(t + i, g, q);
    }
  }

  /** The converse fails: a query spanning the end of the title and the start of the instructor
      finds the course on the concatenation but in no single field. */
  lemma CrossFieldHit()
    ensures var c := Course(1, "ab", "cd", "", "Beginner", 0, 40, 100, false);
      SearchHit(c, "bc") && !TQuery.FieldHit(c, "bc")
  {
    var c := Course(1, "ab", "cd", "", "Beginner", 0, 40, 100, false);
    assert Lower("ab") == "ab" && Lower("cd") == "cd" && Lower("") == "" && Lower("bc") == "bc";
    assert c.title + c.instructor + c.category == "abcd";
    assert Lower("abcd") == "abcd";
    assert IsPrefix("bc", "abcd"[1..]);
    ContainsIff("ab", "bc");
    ContainsIff("cd", "bc");
    ContainsIff("", "bc");
    assert !OccursAt("ab", "bc", 0);
    assert !OccursAt("cd", "bc", 0);
  }

  /** Every course `t.js` lists (not free-only) is also listed by `App.jsx` for the same category and query. */
  lemma TListedIsAppListed(courses: seq<Course>, category: string, query: string, sort: string, x: Course)
    requires x in Filter(courses, TQuery.Matches(TQuery.HomeState(category, false, query)))
    ensures x in AppQuery.Results(courses, AppQuery.Filters(category, sort, false), query)
  {
    TQuery.FilteredMember(courses, TQuery.HomeState(category, false, query), x);
    AppQuery.ResultsMember(courses, AppQuery.Filters(category, sort, false), query, x);
    BlankIff(query);
    if !Blank(query) {
      FieldHitIsSearchHit(x, query);
    }
  }

  /** With every price and level, and sorting by relevance, `App.jsx` and `final.js` list the same
      courses in the same order, whatever `final.js` holds as its sort. */
  lemma AppAgreesWithFinal(courses: seq<Course>, category: string, popular: bool, query: string, sort: string)
    requires category != ""
    ensures AppQuery.Results(courses, AppQuery.Filters(category, "relevance", popular), query)
         == FinalQuery.Results(courses, FinalQuery.Filters(category, "all", "All Levels", sort, popular), query)
  {
    var af := AppQuery.Filters(category, "relevance", popular);
    var ff := FinalQuery.Filters(category, "all", "All Levels", sort, popular);
    SortByRelevance(Filter(courses, AppQuery.Matches(af, query)));
    FilterAgree(courses, AppQuery.Matches(af, query), FinalQuery.Matches(ff, query));
  }
}

/** The course record, the sort keys of the catalog and the stable sort that `list.sort` performs. */
module Catalog {
  import opened Options
  import opened Seqs
  import opened Text

  /** One catalog entry; the rating is kept in tenths of a star so that no floating point is needed. */
  datatype Course = Course(
    id: int,
    title: string,
    instructor: string,
    category: string,
    level: string,
    price: nat,
    ratingTenths: int,
    students: nat,
    bestseller: bool)

  /** `(c.title + c.instructor + c.category).toLowerCase().includes(query.toLowerCase())`: the
      search of `App.jsx` and `final.js`, on one concatenation of the three fields and the untrimmed query. */
  predicate SearchHit(c: Course, query: string) {
    Contains(Lower(c.title + c.instructor + c.category), Lower(query))
  }

  /** The entries of the `sorters` table. */
  datatype SortOrder = Relevance | Rating | Newest | Students | PriceLow | PriceHigh

  /** `sorters[key] || sorters.relevance`: a key outside the table falls back to relevance. */
  function SortOrderOf(key: string): SortOrder {
    if key == "rating" then Rating
    else if key == "newest" then Newest
    else if key == "students" then Students
    else if key == "price_low" then PriceLow
    else if key == "price_high" then PriceHigh
    else Relevance
  }

  /** Every comparator of the table has the form `(a, b) => Rank(a) - Rank(b)`:
      `b.rating - a.rating` ranks by minus the rating, `a.price - b.price` by the price, and so on. */
  function Rank(c: Course, o: SortOrder): int {
    match o
    case Relevance => 0
    case Rating => -c.ratingTenths
    case Newest => -c.id
    case Students => -(c.students as int)
    case PriceLow => c.price
    case PriceHigh => -(c.price as int)
  }

  /** The comparator never orders `a` after `b` for any pair `a` before `b`. */
  predicate SortedBy(s: seq<Course>, o: SortOrder) {
    forall i, j :: 0 <= i < j < |s| ==> Rank(s[i], o) <= Rank(s[j], o)
  }

  /** The courses whose rank is `k`: the ties of a sort. */
  function SameRank(o: SortOrder, k: int): Course -> bool {
    c => Rank(c, o) == k
  }

  /** Puts `x` after every element of `s` that does not rank above it. */
  function Insert(s: seq<Course>, x: Course, o: SortOrder): seq<Course>
    decreases |s|
  {
    if s == [] || Rank(s[|s| - 1], o) <= Rank(x, o) then s + [x]
    else Insert(s[..|s| - 1], x, o) + [s[|s| - 1]]
  }

  /** The stable sort `Array.prototype.sort` performs, as insertion of each element in turn. */
  function SortBy(s: seq<Course>, o: SortOrder): seq<Course>
    decreases |s|
  {
    if s == [] then [] else Insert(SortBy(s[..|s| - 1], o), s[|s| - 1], o)
  }

  lemma {:induction false} InsertMultiset(s: seq<Course>, x: Course, o: SortOrder)
    ensures multiset(Insert(s, x, o)) == multiset(s) + multiset{x}
  {
    if !(s == [] || Rank(s[|s| - 1], o) <= Rank(x, o)) {
      InsertMultiset(s[..|s| - 1], x, o);
      assert s == s[..|s| - 1] + [s[|s| - 1]];
    }
  }

  lemma {:induction false} InsertBounded(s: seq<Course>, x: Course, o: SortOrder, b: int)
    requires forall i :: 0 <= i < |s| ==> Rank(s[i], o) <= b
    requires Rank(x, o) <= b
    ensures |Insert(s, x, o)| == |s| + 1
    ensures forall i :: 0 <= i < |s| + 1 ==> Rank(Insert(s, x, o)[i], o) <= b
  {
    if !(s == [] || Rank(s[|s| - 1], o) <= Rank(x, o)) {
      InsertBounded(s[..|s| - 1], x, o, b);
    }
  }

  lemma {:induction false} InsertSorted(s: seq<Course>, x: Course, o: SortOrder)
    requires SortedBy(s, o)
    ensures SortedBy(Insert(s, x, o), o)
  {
    if s == [] || Rank(s[|s| - 1], o) <= Rank(x, o) {
    } else {
      var init, last := s[..|s| - 1], s[|s| - 1];
      InsertSorted(init, x, o);
      InsertBounded(init, x, o, Rank(last, o));
    }
  }

  lemma {:induction false} InsertTies(s: seq<Course>, x: Course, o: SortOrder, k: int)
    ensures Filter(Insert(s, x, o), SameRank(o, k)) == Filter(s, SameRank(o, k)) + Filter([x], SameRank(o, k))
  {
    var p := SameRank(o, k);
    if s == [] || Rank(s[|s| - 1], o) <= Rank(x, o) {
      FilterConcat(s, [x], p);
    } else {
      var init, last := s[..|s| - 1], s[|s| - 1];
      InsertTies(init, x, o, k);
      FilterConcat(Insert(init, x, o), [last], p);
      FilterConcat(init, [last], p);
      assert s == init + [last];
      FilterSingleton(x, p);
      FilterSingleton(last, p);
    }
  }

  /** Sorting only reorders: the result is a permutation of the input. */
  lemma {:induction false} SortByPermutation(s: seq<Course>, o: SortOrder)
    ensures multiset(SortBy(s, o)) == multiset(s)
  {
    if s != [] {
      SortByPermutation(s[..|s| - 1], o);
      InsertMultiset(SortBy(s[..|s| - 1], o), s[|s| - 1], o);
      assert s == s[..|s| - 1] + [s[|s| - 1]];
    }
  }

  /** The result is ordered by the comparator. */
  lemma {:induction false} SortBySorted(s: seq<Course>, o: SortOrder)
    ensures SortedBy(SortBy(s, o), o)
  {
    if s != [] {
      SortBySorted(s[..|s| - 1], o);
      InsertSorted(SortBy(s[..|s| - 1], o), s[|s| - 1], o);
    }
  }

  /** Stability: the courses of any one rank come out in exactly their input order. */
  lemma {:induction false} SortByStable(s: seq<Course>, o: SortOrder, k: int)
    ensures Filter(SortBy(s, o), SameRank(o, k)) == Filter(s, SameRank(o, k))
  {
    if s != [] {
      var init, last := s[..|s| - 1], s[|s| - 1];
      SortByStable(init, o, k);
      InsertTies(SortBy(init, o), last, o, k);
      FilterConcat(init, [last], SameRank(o, k));
      assert s == init + [last];
    }
  }

  /** The relevance comparator always answers 0, so sorting by it leaves the order alone. */
  lemma {:induction false} SortByRelevance(s: seq<Course>)
    ensures SortBy(s, Relevance) == s
  {
    if s != [] {
      SortByRelevance(s[..|s| - 1]);
      assert s == s[..|s| - 1] + [s[|s| - 1]];
    }
  }

  /** What each comparator's rank means for the key that selects it. */
  lemma RankMeaning(a: Course, b: Course, key: string)
    requires Rank(a, SortOrderOf(key)) <= Rank(b, SortOrderOf(key))
    ensures key == "rating" ==> a.ratingTenths >= b.ratingTenths
    ensures key == "newest" ==> a.id >= b.id
    ensures key == "students" ==> a.students >= b.students
    ensures key == "price_low" ==> a.price <= b.price
    ensures key == "price_high" ==> a.price >= b.price
  {
  }

  /** Sorting one more element of the input inserts it into the sorted prefix. */
  lemma SortByStep(s: seq<Course>, i: int, o: SortOrder)
    requires 0 <= i < |s|
    ensures SortBy(s[..i + 1], o) == Insert(SortBy(s[..i], o), s[i], o)
  {
    assert s[..i + 1][..i] == s[..i];
  }

  /** `list.sort(comparator)` on the array `a`: an insertion sort, stable like the built-in one. */
  method SortInPlace(a: array<Course>, o: SortOrder)
    modifies a
    ensures a[..] == SortBy(old(a[..]), o)
  {
    ghost var input := a[..];
    var i := 0;
    while i < a.Length
      invariant 0 <= i <= a.Length
      invariant a[..i] == SortBy(input[..i], o)
      invariant forall k :: i <= k < a.Length ==> a[k] == input[k]
    {
      InsertAt(a, i, o);
      SortByStep(input, i, o);
      i := i + 1;
    }
    assert input[..a.Length] == input;
  }

  /** Insertion puts `x` right after the last element that does not rank above it. */
  lemma {:induction false} InsertAtPosition(s: seq<Course>, x: Course, o: SortOrder, j: int)
    requires 0 <= j <= |s|
    requires forall k :: j <= k < |s| ==> Rank(s[k], o) > Rank(x, o)
    requires j > 0 ==> Rank(s[j - 1], o) <= Rank(x, o)
    ensures Insert(s, x, o) == s[..j] + [x] + s[j..]
    decreases |s|
  {
    if j < |s| {
      var init := s[..|s| - 1];
      assert init[..j] == s[..j];
      InsertAtPosition(init, x, o, j);
      assert s[j..] == init[j..] + [s[|s| - 1]];
    } else {
      assert s[..j] == s;
    }
  }

  /** One pass of the insertion sort: moves `a[i]` left past the elements of `a[..i]` that rank above it. */
  method InsertAt(a: array<Course>, i: int, o: SortOrder)
    requires 0 <= i < a.Length
    modifies a
    ensures a[..i + 1] == Insert(old(a[..i]), old(a[i]), o)
    ensures forall k :: i < k < a.Length ==> a[k] == old(a[k])
  {
    var x := a[i];
    ghost var sorted := a[..i];
    var j := i;
    while j > 0 && Rank(a[j - 1], o) > Rank(x, o)
      invariant 0 <= j <= i
      invariant forall k :: 0 <= k < j ==> a[k] == sorted[k]
      invariant forall k :: j < k <= i ==> a[k] == sorted[k - 1]
      invariant forall k :: i < k < a.Length ==> a[k] == old(a[k])
      invariant forall k :: j <= k < i ==> Rank(sorted[k], o) > Rank(x, o)
    {
      a[j] := a[j - 1];
      j := j - 1;
    }
    a[j] := x;
    InsertAtPosition(sorted, x, o, j);
    Splice(a[..i + 1], sorted, j, x);
  }

  /** `list.find((c) => c.id === id)`: the first course with that id, if any. */
  function FindById(list: seq<Course>, id: int): (r: Option<Course>)
    ensures r.None? <==> forall i :: 0 <= i < |list| ==> list[i].id != id
    ensures r.Some? ==> r.value in list && r.value.id == id
  {
    if list == [] then None
    else if list[0].id == id then Some(list[0])
    else FindById(list[1..], id)
  }

  /** `find` returns the first match, not merely some match. */
  lemma {:induction false} FindByIdFirst(list: seq<Course>, id: int, i: int)
    requires 0 <= i < |list| && list[i].id == id
    requires forall j :: 0 <= j < i ==> list[j].id != id
    ensures FindById(list, id) == Some(list[i])
  {
    if i > 0 {
      FindByIdFirst(list[1..], id, i - 1);
    }
  }
}

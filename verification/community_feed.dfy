/**
  The community feed: which seed ideas are shown for a search term, a field
  filter and a sort order, in what order, and the summary figures above them.
 */
module CommunityFeed {
  import opened Wrappers
  import opened Text
  import opened Sequences
  import opened StableSort
  import opened Fields
  import opened Dates

  /** The field-filter value that selects every field. */
  const AllFields := "all"

  /** The three controls of the page. */
  datatype Query = Query(searchTerm: string, selectedField: string, sortBy: string)

  /** What the page shows before the visitor touches a control. */
  const InitialQuery := Query("", AllFields, "date")

  /** The orders the sort switch distinguishes; any other value leaves the order alone. */
  datatype SortKey = ByUpvotes | ByDate | ByTitle | Unordered

  function SortKeyOf(sortBy: string): (k: SortKey)
    ensures k == Unordered <==> sortBy !in {"upvotes", "date", "title"}
  {
    if sortBy == "upvotes" then ByUpvotes
    else if sortBy == "date" then ByDate
    else if sortBy == "title" then ByTitle
    else Unordered
  }

  /** The search term occurs, ignoring case, in the title or the problem statement. */
  predicate MatchesSearch(idea: Idea, term: string): (b: bool)
    ensures b <==> ((exists i :: OccursAt(Lower(idea.title), Lower(term), i))
      || (exists i :: OccursAt(Lower(idea.problemStatement), Lower(term), i)))
  {
    Includes(Lower(idea.title), Lower(term)) || Includes(Lower(idea.problemStatement), Lower(term))
  }

  /** `all` selects every idea; any other value selects the ideas of exactly that field, case included. */
  predicate MatchesField(idea: Idea, selected: string): (b: bool)
    ensures selected == AllFields ==> b
    ensures selected != AllFields ==> (b <==> idea.field == selected)
  {
    selected == AllFields || idea.field == selected
  }

  predicate Matches(idea: Idea, q: Query)
  {
    MatchesSearch(idea, q.searchTerm) && MatchesField(idea, q.selectedField)
  }

  /** The ideas the query lets through, in collection order. */
  function FilterIdeas(ideas: seq<Idea>, q: Query): (r: seq<Idea>)
    ensures |r| <= |ideas|
    ensures forall x :: x in r <==> x in ideas && Matches(x, q)
    ensures forall x :: multiset(r)[x] == if Matches(x, q) then multiset(ideas)[x] else 0
  {
    if |ideas| == 0 then []
    else
      assert ideas == [ideas[0]] + ideas[1..];
      (if Matches(ideas[0], q) then [ideas[0]] else []) + FilterIdeas(ideas[1..], q)
  }

  lemma {:induction false} FilterIdeasConcat(a: seq<Idea>, b: seq<Idea>, q: Query)
    ensures FilterIdeas(a + b, q) == FilterIdeas(a, q) + FilterIdeas(b, q)
  {
    if |a| == 0 {
      assert a + b == b;
    } else {
      assert (a + b)[1..] == a[1..] + b;
      FilterIdeasConcat(a[1..], b, q);
    }
  }

  /** A query every idea passes shows the whole collection in its own order. */
  lemma {:induction false} FilterIdeasAll(ideas: seq<Idea>, q: Query)
    requires forall x :: x in ideas ==> Matches(x, q)
    ensures FilterIdeas(ideas, q) == ideas
  {
    if |ideas| > 0 {
      FilterIdeasAll(ideas[1..], q);
    }
  }

  /** Searching ignores the case of the term. */
  lemma SearchIgnoresCase(idea: Idea, term: string)
    ensures MatchesSearch(idea, term) <==> MatchesSearch(idea, Lower(term))
  {
    assert Lower(Lower(term)) == Lower(term);
  }

  /** The empty search term and the `all` filter let every idea through. */
  lemma {:induction false} EmptyQueryMatchesAll(ideas: seq<Idea>, sortBy: string)
    ensures FilterIdeas(ideas, Query("", AllFields, sortBy)) == ideas
  {
    var q := Query("", AllFields, sortBy);
    forall x | x in ideas
      ensures Matches(x, q)
    {
      assert Lower("") == "";
      IncludesEmpty(Lower(x.title));
    }
    FilterIdeasAll(ideas, q);
  }

  /**
    The sign of `new Date(later) - new Date(earlier)`. A text that is not a
    date reads as an invalid date; the difference is then NaN, which the
    sort treats as a tie.
   */
  function DateDifference(later: string, earlier: string): (r: int)
    ensures ParseDate(later).None? || ParseDate(earlier).None? ==> r == 0
    ensures ParseDate(later).Some? && ParseDate(earlier).Some? ==>
      && (r < 0 <==> Before(ParseDate(later).value, ParseDate(earlier).value))
      && (r == 0 <==> ParseDate(later).value == ParseDate(earlier).value)
  {
    match (ParseDate(later), ParseDate(earlier))
    case (Some(l), Some(e)) =>
      DayKeyOrdersDates(l, e);
      DayKey(l) - DayKey(e)
    case _ => 0
  }

  /**
    The comparator the sort switch chooses. A negative answer puts the first
    idea first: the one with more upvotes, the later valid date, or the
    title that sorts first; `default` ties everything.
   */
  function Comparator(key: SortKey): (cmp: (Idea, Idea) -> int)
    ensures key == ByUpvotes ==> forall a, b ::
      && (cmp(a, b) < 0 <==> a.upvotes > b.upvotes)
      && (cmp(a, b) == 0 <==> a.upvotes == b.upvotes)
    ensures key == ByDate ==> forall a, b ::
      && (cmp(a, b) < 0 <==> ParseDate(a.date).Some? && ParseDate(b.date).Some? && Before(ParseDate(b.date).value, ParseDate(a.date).value))
      && (ParseDate(a.date).None? || ParseDate(b.date).None? ==> cmp(a, b) == 0)
    ensures key == ByTitle ==> forall a, b :: cmp(a, b) == LocaleCompare(a.title, b.title)
    ensures key == Unordered ==> forall a, b :: cmp(a, b) == 0
  {
    match key
    case ByUpvotes => (a: Idea, b: Idea) => b.upvotes - a.upvotes
    case ByDate => (a: Idea, b: Idea) => DateDifference(b.date, a.date)
    case ByTitle => (a: Idea, b: Idea) => LocaleCompare(a.title, b.title)
    case Unordered => (a: Idea, b: Idea) => 0
  }

  /** Every idea's date is a valid ISO date. */
  predicate DatesParse(ideas: seq<Idea>)
  {
    forall x :: x in ideas ==> ParseDate(x.date).Some?
  }

  /**
    Each comparator obeys the comparator laws; the date comparator only when
    every date parses, since an invalid date ties with everything.
   */
  lemma ComparatorConsistent(key: SortKey, s: seq<Idea>)
    requires key == ByDate ==> DatesParse(s)
    ensures Consistent(Comparator(key), s)
  {
    var cmp := Comparator(key);
    forall a, b, c | a in s && b in s && c in s
      ensures Laws(cmp, a, b, c)
    {
      if key == ByTitle {
        LocaleCompareIsPreorder(a.title, b.title, c.title);
      } else if key == ByDate {
        var da, db, dc := ParseDate(a.date).value, ParseDate(b.date).value, ParseDate(c.date).value;
        assert cmp(a, b) == DayKey(db) - DayKey(da);
        assert cmp(b, a) == DayKey(da) - DayKey(db);
        assert cmp(b, c) == DayKey(dc) - DayKey(db);
        assert cmp(a, c) == DayKey(dc) - DayKey(da);
      }
    }
  }

  /** The ideas the page lists: filtered, then sorted by the chosen key. */
  function Evaluate(ideas: seq<Idea>, q: Query): (r: seq<Idea>)
    ensures |r| <= |ideas|
    ensures forall x :: x in r <==> x in ideas && Matches(x, q)
    ensures multiset(r) == multiset(FilterIdeas(ideas, q))
  {
    var f := FilterIdeas(ideas, q);
    SortPermutes(Comparator(SortKeyOf(q.sortBy)), f);
    Sort(Comparator(SortKeyOf(q.sortBy)), f)
  }

  lemma EvaluateSorted(ideas: seq<Idea>, q: Query)
    requires SortKeyOf(q.sortBy) == ByDate ==> DatesParse(ideas)
    ensures Sorted(Comparator(SortKeyOf(q.sortBy)), Evaluate(ideas, q))
  {
    var f := FilterIdeas(ideas, q);
    ComparatorConsistent(SortKeyOf(q.sortBy), f);
    SortSorted(Comparator(SortKeyOf(q.sortBy)), f);
  }

  /** `upvotes`: most upvoted first. */
  lemma EvaluateByUpvotes(ideas: seq<Idea>, q: Query)
    requires q.sortBy == "upvotes"
    ensures forall i, j :: 0 <= i < j < |Evaluate(ideas, q)| ==>
      Evaluate(ideas, q)[i].upvotes >= Evaluate(ideas, q)[j].upvotes
  {
    EvaluateSorted(ideas, q);
    var r := Evaluate(ideas, q);
    forall i, j | 0 <= i < j < |r|
      ensures r[i].upvotes >= r[j].upvotes
    {
      assert Comparator(ByUpvotes)(r[i], r[j]) <= 0;
    }
  }

  /** `date`: latest first, when every date is valid. */
  lemma EvaluateByDate(ideas: seq<Idea>, q: Query)
    requires q.sortBy == "date"
    requires DatesParse(ideas)
    ensures forall i, j :: 0 <= i < j < |Evaluate(ideas, q)| ==>
      && ParseDate(Evaluate(ideas, q)[i].date).Some?
      && ParseDate(Evaluate(ideas, q)[j].date).Some?
      && !Before(ParseDate(Evaluate(ideas, q)[i].date).value, ParseDate(Evaluate(ideas, q)[j].date).value)
  {
    EvaluateSorted(ideas, q);
    var r := Evaluate(ideas, q);
    forall i, j | 0 <= i < j < |r|
      ensures ParseDate(r[i].date).Some? && ParseDate(r[j].date).Some?
      ensures !Before(ParseDate(r[i].date).value, ParseDate(r[j].date).value)
    {
      assert r[i] in r && r[j] in r;
      assert Comparator(ByDate)(r[i], r[j]) <= 0;
    }
  }

  /** `title`: alphabetical, ignoring case. */
  lemma EvaluateByTitle(ideas: seq<Idea>, q: Query)
    requires q.sortBy == "title"
    ensures forall i, j :: 0 <= i < j < |Evaluate(ideas, q)| ==>
      LocaleCompare(Evaluate(ideas, q)[i].title, Evaluate(ideas, q)[j].title) <= 0
  {
    EvaluateSorted(ideas, q);
    var r := Evaluate(ideas, q);
    forall i, j | 0 <= i < j < |r|
      ensures LocaleCompare(r[i].title, r[j].title) <= 0
    {
      assert Comparator(ByTitle)(r[i], r[j]) <= 0;
    }
  }

  /** Any other sort value keeps the filtered ideas in collection order. */
  lemma EvaluateUnordered(ideas: seq<Idea>, q: Query)
    requires SortKeyOf(q.sortBy) == Unordered
    ensures Evaluate(ideas, q) == FilterIdeas(ideas, q)
  {
    SortAllTies(Comparator(Unordered), FilterIdeas(ideas, q));
  }

  lemma {:induction false} FilterTiesCommute(cmp: (Idea, Idea) -> int, s: seq<Idea>, q: Query, x: Idea)
    ensures TiesWith(cmp, FilterIdeas(s, q), x) == FilterIdeas(TiesWith(cmp, s, x), q)
  {
    if |s| > 0 {
      FilterTiesCommute(cmp, s[1..], q, x);
      var head := if Matches(s[0], q) then [s[0]] else [];
      TiesWithConcat(cmp, head, FilterIdeas(s[1..], q), x);
      var ties := if cmp(s[0], x) == 0 then [s[0]] else [];
      FilterIdeasConcat(ties, TiesWith(cmp, s[1..], x), q);
      if |head| == 1 {
        assert head[1..] == [];
      }
      if |ties| == 1 {
        assert ties[1..] == [];
      }
    }
  }

  /**
    Stability: ideas the chosen order ties with `x` (same upvotes, same day,
    titles equal but for case, or every idea under an unknown order) are
    listed in collection order.
   */
  lemma EvaluateStable(ideas: seq<Idea>, q: Query, x: Idea)
    requires SortKeyOf(q.sortBy) == ByDate ==> DatesParse(ideas + [x])
    ensures var cmp := Comparator(SortKeyOf(q.sortBy));
      TiesWith(cmp, Evaluate(ideas, q), x) == FilterIdeas(TiesWith(cmp, ideas, x), q)
  {
    var cmp := Comparator(SortKeyOf(q.sortBy));
    var f := FilterIdeas(ideas, q);
    assert forall y :: y in f + [x] ==> y in ideas + [x];
    ComparatorConsistent(SortKeyOf(q.sortBy), f + [x]);
    SortStable(cmp, f, x);
    FilterTiesCommute(cmp, ideas, q, x);
  }

  /** The page as first shown lists every idea. */
  lemma InitialQueryShowsAll(ideas: seq<Idea>)
    ensures multiset(Evaluate(ideas, InitialQuery)) == multiset(ideas)
  {
    EmptyQueryMatchesAll(ideas, "date");
  }

  /** The field of each idea, in collection order. */
  function FieldNames(ideas: seq<Idea>): (r: seq<string>)
    ensures |r| == |ideas|
    ensures forall i :: 0 <= i < |ideas| ==> r[i] == ideas[i].field
  {
    seq(|ideas|, i requires 0 <= i < |ideas| => ideas[i].field)
  }

  /**
    `['all', ...new Set(ideas.map(idea => idea.field))]`: the filter's
    options, each field once, in order of first appearance.
   */
  function FieldOptions(ideas: seq<Idea>): (r: seq<string>)
    ensures |r| >= 1 && r[0] == AllFields
    ensures forall f :: f in r[1..] <==> exists i :: 0 <= i < |ideas| && ideas[i].field == f
    ensures NoDuplicates(r[1..])
  {
    var names := FieldNames(ideas);
    var r := [AllFields] + Distinct(names);
    assert r[1..] == Distinct(names);
    forall f
      ensures f in names <==> exists i :: 0 <= i < |ideas| && ideas[i].field == f
    {
      if f in names {
        var i :| 0 <= i < |names| && names[i] == f;
        assert ideas[i].field == f;
      }
    }
    r
  }

  /** The field options after `all` are listed in order of first appearance. */
  lemma FieldOptionsOrder(ideas: seq<Idea>)
    ensures forall i, j :: 1 <= i < j < |FieldOptions(ideas)| ==>
      FirstIndex(FieldNames(ideas), FieldOptions(ideas)[i]) < FirstIndex(FieldNames(ideas), FieldOptions(ideas)[j])
  {
    var names := FieldNames(ideas);
    DistinctKeepsFirstOccurrenceOrder(names);
    var r := FieldOptions(ideas);
    assert r[1..] == Distinct(names);
    forall i, j | 1 <= i < j < |r|
      ensures FirstIndex(names, r[i]) < FirstIndex(names, r[j])
    {
      assert r[i] == Distinct(names)[i - 1] && r[j] == Distinct(names)[j - 1];
    }
  }

  /** `ideas.filter(idea => idea.status === status).length`. */
  function CountStatus(ideas: seq<Idea>, status: string): (n: nat)
    ensures n <= |ideas|
    ensures n == 0 <==> forall i :: 0 <= i < |ideas| ==> ideas[i].status != status
    ensures n == |ideas| <==> forall i :: 0 <= i < |ideas| ==> ideas[i].status == status
  {
    if |ideas| == 0 then 0
    else
      var rest := CountStatus(ideas[1..], status);
      assert forall i :: 1 <= i < |ideas| ==> ideas[i] == ideas[1..][i - 1];
      (if ideas[0].status == status then 1 else 0) + rest
  }

  /** The status of each idea, in collection order. */
  function Statuses(ideas: seq<Idea>): (r: seq<string>)
    ensures |r| == |ideas|
    ensures forall i :: 0 <= i < |ideas| ==> r[i] == ideas[i].status
  {
    seq(|ideas|, i requires 0 <= i < |ideas| => ideas[i].status)
  }

  /** The count is the number of times the status occurs. */
  lemma {:induction false} CountStatusIsMultiplicity(ideas: seq<Idea>, status: string)
    ensures CountStatus(ideas, status) == multiset(Statuses(ideas))[status]
  {
    if |ideas| > 0 {
      CountStatusIsMultiplicity(ideas[1..], status);
      assert Statuses(ideas) == [ideas[0].status] + Statuses(ideas[1..]);
    }
  }

  /** Two different statuses never count the same idea twice. */
  lemma {:induction false} CountTwoStatuses(ideas: seq<Idea>, s: string, t: string)
    requires s != t
    ensures CountStatus(ideas, s) + CountStatus(ideas, t) <= |ideas|
  {
    if |ideas| > 0 {
      CountTwoStatuses(ideas[1..], s, t);
    }
  }

  /** `fields.length - 1` counts the distinct fields of the collection. */
  lemma FieldsCovered(ideas: seq<Idea>)
    ensures |FieldOptions(ideas)| - 1 == |Elements(FieldNames(ideas))|
    ensures |Elements(FieldNames(ideas))| <= |ideas|
    ensures |Elements(FieldNames(ideas))| == 0 <==> |ideas| == 0
  {
    var names := FieldNames(ideas);
    DistinctLength(names);
    ElementsCardinality(names);
  }

  /** The four figures above the list. They are computed over the whole collection, not the filtered list. */
  datatype Stats = Stats(total: int, implemented: int, inDevelopment: int, fieldsCovered: int)

  function FeedStats(ideas: seq<Idea>): (r: Stats)
    ensures r.total == |ideas|
    ensures r.implemented == multiset(Statuses(ideas))[Implemented]
    ensures r.inDevelopment == multiset(Statuses(ideas))[UnderDevelopment]
    ensures 0 <= r.implemented && 0 <= r.inDevelopment && r.implemented + r.inDevelopment <= r.total
    ensures r.fieldsCovered == |Elements(FieldNames(ideas))|
    ensures 0 <= r.fieldsCovered <= r.total
    ensures r.fieldsCovered == 0 <==> |ideas| == 0
  {
    FieldsCovered(ideas);
    CountTwoStatuses(ideas, Implemented, UnderDevelopment);
    CountStatusIsMultiplicity(ideas, Implemented);
    CountStatusIsMultiplicity(ideas, UnderDevelopment);
    Stats(|ideas|, CountStatus(ideas, Implemented), CountStatus(ideas, UnderDevelopment), |FieldOptions(ideas)| - 1)
  }

  const ImplementedBadge := "bg-green-100 text-green-800"
  const DevelopmentBadge := "bg-blue-100 text-blue-800"
  const ReviewBadge := "bg-yellow-100 text-yellow-800"
  const NeutralBadge := "bg-gray-100 text-gray-800"

  /** The colour classes of an idea's status badge. */
  function StatusBadge(status: string): (r: string)
    ensures r == NeutralBadge <==> status !in {Implemented, UnderDevelopment, InReview}
    ensures r in {ImplementedBadge, DevelopmentBadge, ReviewBadge, NeutralBadge}
  {
    if status == Implemented then ImplementedBadge
    else if status == UnderDevelopment then DevelopmentBadge
    else if status == InReview then ReviewBadge
    else NeutralBadge
  }

  /** Each known status has a colour of its own. */
  lemma StatusBadgesDistinct(s: string, t: string)
    requires s in {Implemented, UnderDevelopment, InReview} && t in {Implemented, UnderDevelopment, InReview}
    ensures StatusBadge(s) == StatusBadge(t) <==> s == t
  {
  }
}

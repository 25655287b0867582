/**
  The community feed evaluated on the seed ideas: the orders and selections
  a visitor sees for some settings of the controls, and the summary figures.
 */
module FeedSeed {
  import opened Wrappers
  import opened Text
  import opened StableSort
  import opened Sequences
  import opened Fields
  import opened Dates
  import opened CommunityFeed
  import SeedFacts

  /** The ids of a list of ideas, in order. */
  function IdsOf(ideas: seq<Idea>): (r: seq<int>)
    ensures |r| == |ideas|
    ensures forall i :: 0 <= i < |ideas| ==> r[i] == ideas[i].id
  {
    seq(|ideas|, i requires 0 <= i < |ideas| => ideas[i].id)
  }

  lemma IdsOfFive(a: Idea, b: Idea, c: Idea, d: Idea, e: Idea)
    ensures IdsOf([a, b, c, d, e]) == [a.id, b.id, c.id, d.id, e.id]
  {
  }

  lemma SeedIds()
    ensures IdsOf(MockIdeas) == [1, 2, 3, 4, 5]
  {
    IdsOfFive(TrafficSignalIdea, LandRegistryIdea, WasteCollectionIdea, RuralLearningIdea, WaterPurificationIdea);
  }

  /** With no search term and no field filter, the list is the sorted seed collection. */
  lemma EvaluateAllFields(sortBy: string)
    ensures Evaluate(MockIdeas, Query("", AllFields, sortBy)) == Sort(Comparator(SortKeyOf(sortBy)), MockIdeas)
  {
    EmptyQueryMatchesAll(MockIdeas, sortBy);
  }

  /*
    Sort orders. The sorted list is pinned down without running the sort: a
    consistent comparator without ties has one sorted permutation only.
   */

  /** Ideas with pairwise different upvotes never tie under the upvotes comparator. */
  lemma DistinctUpvotesTieFree(s: seq<Idea>)
    requires forall i, j :: 0 <= i < j < |s| ==> s[i].upvotes != s[j].upvotes
    ensures TieFree(Comparator(ByUpvotes), s)
  {
    forall x, y | x in s && y in s
      ensures Apart(Comparator(ByUpvotes), x, y)
    {
      var i :| 0 <= i < |s| && s[i] == x;
      var j :| 0 <= j < |s| && s[j] == y;
      assert i != j ==> s[i].upvotes != s[j].upvotes;
    }
  }

  /**
    Five ideas with distinct upvotes, sorted most upvoted first: the
    insertions of the sort, one by one.
   */
  lemma UpvotesOrder(a: Idea, b: Idea, c: Idea, d: Idea, e: Idea)
    requires d.upvotes > c.upvotes > a.upvotes > e.upvotes > b.upvotes
    ensures Sort(Comparator(ByUpvotes), [a, b, c, d, e]) == [d, c, a, e, b]
  {
    var cmp := Comparator(ByUpvotes);
    SortSingleton(cmp, a);
    assert Sort(cmp, [a, b]) == [a, b] by {
      SortSnoc(cmp, [a], b);
      InsertPast(cmp, b, a, []);
      assert [a] + [b] == [a, b] && [a] + [] == [a];
    }
    assert Sort(cmp, [a, b, c]) == [c, a, b] by {
      SortSnoc(cmp, [a, b], c);
      InsertBefore(cmp, c, a, [b]);
      assert [a, b] + [c] == [a, b, c] && [a] + [b] == [a, b];
    }
    assert Sort(cmp, [a, b, c, d]) == [d, c, a, b] by {
      SortSnoc(cmp, [a, b, c], d);
      InsertBefore(cmp, d, c, [a, b]);
      assert [a, b, c] + [d] == [a, b, c, d] && [c] + [a, b] == [c, a, b];
    }
    SortSnoc(cmp, [a, b, c, d], e);
    assert [a, b, c, d] + [e] == [a, b, c, d, e];
    InsertFifth(cmp, e, d, c, a, b);
  }

  /** Inserting `x` into `[p, q, r, s]` where only `s` compares after it. */
  lemma InsertFifth<T>(cmp: (T, T) -> int, x: T, p: T, q: T, r: T, s: T)
    requires cmp(p, x) <= 0 && cmp(q, x) <= 0 && cmp(r, x) <= 0 && cmp(s, x) > 0
    ensures Insert(cmp, x, [p, q, r, s]) == [p, q, r, x, s]
  {
    InsertBefore(cmp, x, s, []);
    assert [s] + [] == [s];
    var t1 := [x, s];
    InsertPast(cmp, x, r, [s]);
    assert [r] + [s] == [r, s] && [r] + t1 == [r, x, s];
    var t2 := [r, x, s];
    InsertPast(cmp, x, q, [r, s]);
    assert [q] + [r, s] == [q, r, s] && [q] + t2 == [q, r, x, s];
    var t3 := [q, r, x, s];
    InsertPast(cmp, x, p, [q, r, s]);
    assert [p] + [q, r, s] == [p, q, r, s] && [p] + t3 == [p, q, r, x, s];
  }

  /** Sorting by upvotes lists the seed ideas as 4, 3, 1, 5, 2. */
  lemma SeedByUpvotes()
    ensures IdsOf(Evaluate(MockIdeas, Query("", AllFields, "upvotes"))) == [4, 3, 1, 5, 2]
  {
    var sorted := [RuralLearningIdea, WasteCollectionIdea, TrafficSignalIdea, WaterPurificationIdea, LandRegistryIdea];
    assert Sort(Comparator(ByUpvotes), MockIdeas) == sorted by {
      UpvotesOrder(TrafficSignalIdea, LandRegistryIdea, WasteCollectionIdea, RuralLearningIdea, WaterPurificationIdea);
    }
    EvaluateAllFields("upvotes");
    IdsOfFive(RuralLearningIdea, WasteCollectionIdea, TrafficSignalIdea, WaterPurificationIdea, LandRegistryIdea);
  }

  /** Every date of `s` parses, and each is strictly later than the ones after it. */
  ghost predicate StrictlyNewestFirst(s: seq<Idea>)
  {
    && DatesParse(s)
    && forall i, j :: 0 <= i < j < |s| ==> Before(ParseDate(s[j].date).value, ParseDate(s[i].date).value)
  }

  lemma NewestFirstSorted(s: seq<Idea>)
    requires StrictlyNewestFirst(s)
    ensures Sorted(Comparator(ByDate), s)
  {
    forall i, j | 0 <= i < j < |s|
      ensures Comparator(ByDate)(s[i], s[j]) <= 0
    {
      assert s[i] in s && s[j] in s;
      assert DateDifference(s[j].date, s[i].date) < 0;
    }
  }

  lemma NewestFirstTieFree(s: seq<Idea>)
    requires StrictlyNewestFirst(s)
    ensures TieFree(Comparator(ByDate), s)
  {
    forall a, b | a in s && b in s && a != b
      ensures DateDifference(b.date, a.date) != 0
    {
      var i :| 0 <= i < |s| && s[i] == a;
      var j :| 0 <= j < |s| && s[j] == b;
      var lo, hi := if i < j then i else j, if i < j then j else i;
      assert lo < hi;
      assert Before(ParseDate(s[hi].date).value, ParseDate(s[lo].date).value);
    }
    assert forall a, b :: a in s && b in s ==> Apart(Comparator(ByDate), a, b);
  }

  /** A list already strictly newest first is left as it is by the date sort. */
  lemma NewestFirstUnchanged(s: seq<Idea>)
    requires StrictlyNewestFirst(s)
    ensures Sort(Comparator(ByDate), s) == s
  {
    ComparatorConsistent(ByDate, s);
    NewestFirstSorted(s);
    NewestFirstTieFree(s);
    SortUnique(Comparator(ByDate), s, s);
  }

  lemma SeedDatesParse()
    ensures DatesParse(MockIdeas)
  {
    SeedFacts.SeedDatesDecrease();
    forall x | x in MockIdeas
      ensures ParseDate(x.date).Some?
    {
      var i :| 0 <= i < |MockIdeas| && MockIdeas[i] == x;
    }
  }

  /** Sorting by date lists the seed ideas as 1, 2, 3, 4, 5: latest first, which is source order. */
  lemma SeedByDate()
    ensures IdsOf(Evaluate(MockIdeas, Query("", AllFields, "date"))) == [1, 2, 3, 4, 5]
  {
    EvaluateAllFields("date");
    SeedDatesParse();
    SeedFacts.SeedDatesDecrease();
    NewestFirstUnchanged(MockIdeas);
    SeedIds();
  }

  /*
    Selections. The filter is unrolled over the five seed ideas; whether each
    idea passes is settled one idea at a time.
   */

  /** The idea as a list of its own if the query lets it through, else nothing. */
  function Keep(x: Idea, q: Query): (r: seq<Idea>)
    ensures r == [] || r == [x]
    ensures r == [x] <==> Matches(x, q)
  {
    if Matches(x, q) then [x] else []
  }

  lemma FilterStep(ideas: seq<Idea>, q: Query, k: nat)
    requires k < |ideas|
    ensures FilterIdeas(ideas[k..], q) == Keep(ideas[k], q) + FilterIdeas(ideas[k + 1..], q)
  {
    assert ideas[k..][1..] == ideas[k + 1..];
  }

  lemma FilterFive(ideas: seq<Idea>, q: Query)
    requires |ideas| == 5
    ensures FilterIdeas(ideas, q) == Keep(ideas[0], q) + (Keep(ideas[1], q) + (Keep(ideas[2], q) + (Keep(ideas[3], q) + Keep(ideas[4], q))))
  {
    var t4 := Keep(ideas[4], q);
    assert ideas[5..] == [];
    FilterStep(ideas, q, 4);
    assert FilterIdeas(ideas[4..], q) == t4;
    var t3 := Keep(ideas[3], q) + t4;
    FilterStep(ideas, q, 3);
    assert FilterIdeas(ideas[3..], q) == t3;
    var t2 := Keep(ideas[2], q) + t3;
    FilterStep(ideas, q, 2);
    assert FilterIdeas(ideas[2..], q) == t2;
    var t1 := Keep(ideas[1], q) + t2;
    FilterStep(ideas, q, 1);
    assert FilterIdeas(ideas[1..], q) == t1;
    FilterStep(ideas, q, 0);
    assert ideas[0..] == ideas;
  }

  lemma SortSingleton(cmp: (Idea, Idea) -> int, x: Idea)
    ensures Sort(cmp, [x]) == [x]
  {
    assert [x][..0] == [];
  }

  /** A query that lets one idea through shows just that idea, whatever the order. */
  lemma EvaluateSingle(ideas: seq<Idea>, q: Query, x: Idea)
    requires FilterIdeas(ideas, q) == [x]
    ensures Evaluate(ideas, q) == [x]
    ensures IdsOf(Evaluate(ideas, q)) == [x.id]
  {
    SortSingleton(Comparator(SortKeyOf(q.sortBy)), x);
  }

  /** The field filter set to `Technology`, with any sort key. */
  function TechnologyQuery(sortBy: string): Query
  {
    Query("", "Technology", sortBy)
  }

  lemma TechnologyKeeps(sortBy: string)
    ensures Keep(TrafficSignalIdea, TechnologyQuery(sortBy)) == []
    ensures Keep(LandRegistryIdea, TechnologyQuery(sortBy)) == [LandRegistryIdea]
    ensures Keep(WasteCollectionIdea, TechnologyQuery(sortBy)) == []
    ensures Keep(RuralLearningIdea, TechnologyQuery(sortBy)) == []
    ensures Keep(WaterPurificationIdea, TechnologyQuery(sortBy)) == []
  {
    assert Lower("") == "";
    IncludesEmpty(Lower(LandRegistryIdea.title));
  }

  lemma TechnologyFilter(sortBy: string)
    ensures FilterIdeas(MockIdeas, TechnologyQuery(sortBy)) == [LandRegistryIdea]
  {
    TechnologyKeeps(sortBy);
    FilterFive(MockIdeas, TechnologyQuery(sortBy));
  }

  /** Filtering on the field `Technology` leaves only idea 2, whatever the sort key. */
  lemma SeedTechnology(sortBy: string)
    ensures IdsOf(Evaluate(MockIdeas, Query("", "Technology", sortBy))) == [2]
  {
    TechnologyFilter(sortBy);
    EvaluateSingle(MockIdeas, TechnologyQuery(sortBy), LandRegistryIdea);
  }

  /** Every `w` of `s`, in either case, is followed within `s` by something other than `at`. */
  ghost predicate WaterFree(s: string)
  {
    forall i :: 0 <= i < |s| && LowerChar(s[i]) == 'w' ==>
      i + 2 < |s| && (LowerChar(s[i + 1]) != 'a' || LowerChar(s[i + 2]) != 't')
  }

  /**
    Every `w` of `s` in either case sits at a position in `starts`, and each of
    those is followed within `s` by something other than `at`.
   */
  lemma WaterFreeByStarts(s: string, starts: set<int>)
    requires forall i :: 0 <= i < |s| && i !in starts ==> s[i] != 'w' && s[i] != 'W'
    requires forall p :: p in starts ==> 0 <= p && p + 2 < |s| && (LowerChar(s[p + 1]) != 'a' || LowerChar(s[p + 2]) != 't')
    ensures WaterFree(s)
  {
  }

  lemma WaterFreeConcat(a: string, b: string)
    requires WaterFree(a) && WaterFree(b)
    ensures WaterFree(a + b)
  {
    forall i | 0 <= i < |a + b| && LowerChar((a + b)[i]) == 'w'
      ensures i + 2 < |a + b| && (LowerChar((a + b)[i + 1]) != 'a' || LowerChar((a + b)[i + 2]) != 't')
    {
      if i < |a| {
        assert (a + b)[i] == a[i] && (a + b)[i + 1] == a[i + 1] && (a + b)[i + 2] == a[i + 2];
      } else {
        var k := i - |a|;
        assert (a + b)[i] == b[k] && (a + b)[i + 1] == b[k + 1] && (a + b)[i + 2] == b[k + 2];
      }
    }
  }

  /** A water-free text does not contain `water` in any case. */
  lemma NoWaterIn(text: string)
    requires WaterFree(text)
    ensures !Includes(Lower(text), "water")
  {
    var h := Lower(text);
    forall i | 0 <= i && i + 5 <= |h|
      ensures !OccursAt(h, "water", i)
    {
      var w := h[i..i + 5];
      assert w[0] == h[i] && w[1] == h[i + 1] && w[2] == h[i + 2];
    }
  }

  /** The pieces of a text, concatenated in order. */
  function Join(pieces: seq<string>): (r: string)
    ensures |pieces| == 1 ==> r == pieces[0]
    ensures |pieces| == 2 ==> r == pieces[0] + pieces[1]
    ensures |pieces| == 3 ==> r == pieces[0] + pieces[1] + pieces[2]
  {
    if |pieces| == 0 then ""
    else
      var init := pieces[..|pieces| - 1];
      assert |pieces| == 2 ==> init == [pieces[0]];
      assert |pieces| == 3 ==> init == [pieces[0], pieces[1]];
      Join(init) + pieces[|pieces| - 1]
  }

  /** Water-free pieces join into a water-free text. */
  lemma {:induction false} WaterFreeJoin(pieces: seq<string>)
    requires forall k :: 0 <= k < |pieces| ==> WaterFree(pieces[k])
    ensures WaterFree(Join(pieces))
  {
    if |pieces| > 0 {
      var init := pieces[..|pieces| - 1];
      assert Join(pieces) == Join(init) + pieces[|pieces| - 1];
      WaterFreeJoin(init);
      WaterFreeConcat(Join(init), pieces[|pieces| - 1]);
    }
  }

  /*
    The searched texts of the first four seed ideas, checked one literal piece
    at a time: each piece is water-free, so their join is.
   */

  lemma TrafficSignalTitlePiece1()
    ensures WaterFree("AI-Powered Traffic Signal ")
  {
    WaterFreeByStarts("AI-Powered Traffic Signal ", {5});
  }

  lemma TrafficSignalTitlePiece2()
    ensures WaterFree("Optimization")
  {
    WaterFreeByStarts("Optimization", {});
  }

  lemma TrafficSignalTitle()
    ensures !Includes(Lower(TrafficSignalIdea.title), "water")
  {
    TrafficSignalTitlePiece1();
    TrafficSignalTitlePiece2();
    WaterFreeJoin(["AI-Powered Traffic Signal ", "Optimization"]);
    NoWaterIn(Join(["AI-Powered Traffic Signal ", "Optimization"]));
  }

  lemma TrafficSignalProblemPiece1()
    ensures WaterFree("Traffic congestion in urban areas ")
  {
    WaterFreeByStarts("Traffic congestion in urban areas ", {});
  }

  lemma TrafficSignalProblemPiece2()
    ensures WaterFree("leads to increased travel time, ")
  {
    WaterFreeByStarts("leads to increased travel time, ", {});
  }

  lemma TrafficSignalProblemPiece3()
    ensures WaterFree("fuel consumption, and air pollution.")
  {
    WaterFreeByStarts("fuel consumption, and air pollution.", {});
  }

  lemma TrafficSignalProblem()
    ensures !Includes(Lower(TrafficSignalIdea.problemStatement), "water")
  {
    TrafficSignalProblemPiece1();
    TrafficSignalProblemPiece2();
    TrafficSignalProblemPiece3();
    WaterFreeJoin(["Traffic congestion in urban areas ", "leads to increased travel time, ", "fuel consumption, and air pollution."]);
    NoWaterIn(Join(["Traffic congestion in urban areas ", "leads to increased travel time, ", "fuel consumption, and air pollution."]));
  }

  lemma LandRegistryTitlePiece1()
    ensures WaterFree("Blockchain-Based Land Registry ")
  {
    WaterFreeByStarts("Blockchain-Based Land Registry ", {});
  }

  lemma LandRegistryTitlePiece2()
    ensures WaterFree("System")
  {
    WaterFreeByStarts("System", {});
  }

  lemma LandRegistryTitle()
    ensures !Includes(Lower(LandRegistryIdea.title), "water")
  {
    LandRegistryTitlePiece1();
    LandRegistryTitlePiece2();
    WaterFreeJoin(["Blockchain-Based Land Registry ", "System"]);
    NoWaterIn(Join(["Blockchain-Based Land Registry ", "System"]));
  }

  lemma LandRegistryProblemPiece1()
    ensures WaterFree("Land disputes and fraudulent ")
  {
    WaterFreeByStarts("Land disputes and fraudulent ", {});
  }

  lemma LandRegistryProblemPiece2()
    ensures WaterFree("property transactions are common in ")
  {
    WaterFreeByStarts("property transactions are common in ", {});
  }

  lemma LandRegistryProblemPiece3()
    ensures WaterFree("India.")
  {
    WaterFreeByStarts("India.", {});
  }

  lemma LandRegistryProblem()
    ensures !Includes(Lower(LandRegistryIdea.problemStatement), "water")
  {
    LandRegistryProblemPiece1();
    LandRegistryProblemPiece2();
    LandRegistryProblemPiece3();
    WaterFreeJoin(["Land disputes and fraudulent ", "property transactions are common in ", "India."]);
    NoWaterIn(Join(["Land disputes and fraudulent ", "property transactions are common in ", "India."]));
  }

  lemma WasteCollectionTitle()
    ensures !Includes(Lower(WasteCollectionIdea.title), "water")
  {
    WaterFreeByStarts("Smart Waste Collection System", {6});
    NoWaterIn("Smart Waste Collection System");
  }

  lemma WasteCollectionProblemPiece1()
    ensures WaterFree("Inefficient waste collection leads ")
  {
    WaterFreeByStarts("Inefficient waste collection leads ", {12});
  }

  lemma WasteCollectionProblemPiece2()
    ensures WaterFree("to overflowing bins and unhygienic ")
  {
    WaterFreeByStarts("to overflowing bins and unhygienic ", {10});
  }

  lemma WasteCollectionProblemPiece3()
    ensures WaterFree("conditions.")
  {
    WaterFreeByStarts("conditions.", {});
  }

  lemma WasteCollectionProblem()
    ensures !Includes(Lower(WasteCollectionIdea.problemStatement), "water")
  {
    WasteCollectionProblemPiece1();
    WasteCollectionProblemPiece2();
    WasteCollectionProblemPiece3();
    WaterFreeJoin(["Inefficient waste collection leads ", "to overflowing bins and unhygienic ", "conditions."]);
    NoWaterIn(Join(["Inefficient waste collection leads ", "to overflowing bins and unhygienic ", "conditions."]));
  }

  lemma RuralLearningTitlePiece1()
    ensures WaterFree("Digital Learning Platform for Rural ")
  {
    WaterFreeByStarts("Digital Learning Platform for Rural ", {});
  }

  lemma RuralLearningTitlePiece2()
    ensures WaterFree("Students")
  {
    WaterFreeByStarts("Students", {});
  }

  lemma RuralLearningTitle()
    ensures !Includes(Lower(RuralLearningIdea.title), "water")
  {
    RuralLearningTitlePiece1();
    RuralLearningTitlePiece2();
    WaterFreeJoin(["Digital Learning Platform for Rural ", "Students"]);
    NoWaterIn(Join(["Digital Learning Platform for Rural ", "Students"]));
  }

  lemma RuralLearningProblemPiece1()
    ensures WaterFree("Rural students lack access to ")
  {
    WaterFreeByStarts("Rural students lack access to ", {});
  }

  lemma RuralLearningProblemPiece2()
    ensures WaterFree("quality educational resources and ")
  {
    WaterFreeByStarts("quality educational resources and ", {});
  }

  lemma RuralLearningProblemPiece3()
    ensures WaterFree("expert teachers.")
  {
    WaterFreeByStarts("expert teachers.", {});
  }

  lemma RuralLearningProblem()
    ensures !Includes(Lower(RuralLearningIdea.problemStatement), "water")
  {
    RuralLearningProblemPiece1();
    RuralLearningProblemPiece2();
    RuralLearningProblemPiece3();
    WaterFreeJoin(["Rural students lack access to ", "quality educational resources and ", "expert teachers."]);
    NoWaterIn(Join(["Rural students lack access to ", "quality educational resources and ", "expert teachers."]));
  }

  /** An occurrence in the folded prefix is an occurrence in the folded whole. */
  lemma IncludesInPrefix(a: string, b: string, n: string)
    requires Includes(Lower(a), n)
    ensures Includes(Lower(a + b), n)
  {
    var i :| OccursAt(Lower(a), n, i);
    assert Lower(a + b)[i..i + |n|] == Lower(a)[i..i + |n|];
    assert OccursAt(Lower(a + b), n, i);
  }

  lemma WaterPurificationPiece()
    ensures Includes(Lower("Solar-Powered Water Purification "), "water")
  {
    var h := Lower("Solar-Powered Water Purification ");
    assert h[14] == 'w' && h[15] == 'a' && h[16] == 't' && h[17] == 'e' && h[18] == 'r';
    assert h[14..19] == "water";
    assert OccursAt(h, "water", 14);
  }

  lemma WaterPurificationTitle()
    ensures Includes(Lower(WaterPurificationIdea.title), "water")
  {
    WaterPurificationPiece();
    IncludesInPrefix("Solar-Powered Water Purification ", "System", "water");
  }

  /** The search `water` over all fields, with any sort key. */
  function WaterQuery(sortBy: string): Query
  {
    Query("water", AllFields, sortBy)
  }

  lemma WaterKeeps(sortBy: string)
    ensures Keep(TrafficSignalIdea, WaterQuery(sortBy)) == []
    ensures Keep(LandRegistryIdea, WaterQuery(sortBy)) == []
    ensures Keep(WasteCollectionIdea, WaterQuery(sortBy)) == []
    ensures Keep(RuralLearningIdea, WaterQuery(sortBy)) == []
    ensures Keep(WaterPurificationIdea, WaterQuery(sortBy)) == [WaterPurificationIdea]
  {
    assert Lower("water") == "water";
    TrafficSignalTitle();
    TrafficSignalProblem();
    LandRegistryTitle();
    LandRegistryProblem();
    WasteCollectionTitle();
    WasteCollectionProblem();
    RuralLearningTitle();
    RuralLearningProblem();
    WaterPurificationTitle();
  }

  lemma WaterFilter(sortBy: string)
    ensures FilterIdeas(MockIdeas, WaterQuery(sortBy)) == [WaterPurificationIdea]
  {
    WaterKeeps(sortBy);
    FilterFive(MockIdeas, WaterQuery(sortBy));
  }

  /** Searching for `water` finds only idea 5, whatever the sort key. */
  lemma SeedWater(sortBy: string)
    ensures IdsOf(Evaluate(MockIdeas, Query("water", AllFields, sortBy))) == [5]
  {
    WaterFilter(sortBy);
    EvaluateSingle(MockIdeas, WaterQuery(sortBy), WaterPurificationIdea);
  }

  /*
    Field options and summary figures.
   */

  /** Distinct values of a sequence shaped like the seed fields. */
  lemma DistinctPattern(a: string, b: string, c: string)
    requires a != b && a != c && b != c
    ensures Distinct([a, b, c, c, c]) == [a, b, c]
  {
    var s1 := [a];
    assert Distinct(s1) == [a] by {
      DistinctSnoc([], a);
      assert [] + [a] == s1;
    }
    var s2 := s1 + [b];
    assert Distinct(s2) == [a, b] by {
      DistinctSnoc(s1, b);
      assert b !in [a];
    }
    var s3 := s2 + [c];
    assert Distinct(s3) == [a, b, c] by {
      DistinctSnoc(s2, c);
      assert c !in [a, b];
    }
    var s4 := s3 + [c];
    assert Distinct(s4) == [a, b, c] by {
      DistinctSnoc(s3, c);
      assert c in [a, b, c];
    }
    var s5 := s4 + [c];
    assert Distinct(s5) == [a, b, c] by {
      DistinctSnoc(s4, c);
      assert c in [a, b, c];
    }
    assert s5 == [a, b, c, c, c];
  }

  lemma SeedFieldNames()
    ensures FieldNames(MockIdeas) == ["Transportation", "Technology", "Community Development", "Community Development", "Community Development"]
  {
  }

  /** The field filter offers `all` and the three fields of the seed ideas, in order of first appearance. */
  lemma SeedFieldOptions()
    ensures FieldOptions(MockIdeas) == [AllFields, "Transportation", "Technology", "Community Development"]
    ensures FeedStats(MockIdeas).fieldsCovered == 3
  {
    SeedFieldNames();
    DistinctPattern("Transportation", "Technology", "Community Development");
  }

  /** One for an idea with the status, zero otherwise. */
  function Indicator(x: Idea, status: string): (n: nat)
    ensures n <= 1
    ensures n == 1 <==> x.status == status
  {
    if x.status == status then 1 else 0
  }

  lemma CountStep(ideas: seq<Idea>, status: string, k: nat)
    requires k < |ideas|
    ensures CountStatus(ideas[k..], status) == Indicator(ideas[k], status) + CountStatus(ideas[k + 1..], status)
  {
    assert ideas[k..][1..] == ideas[k + 1..];
  }

  lemma CountFive(ideas: seq<Idea>, status: string)
    requires |ideas| == 5
    ensures CountStatus(ideas, status) == Indicator(ideas[0], status) + Indicator(ideas[1], status)
      + Indicator(ideas[2], status) + Indicator(ideas[3], status) + Indicator(ideas[4], status)
  {
    assert ideas[5..] == [];
    CountStep(ideas, status, 4);
    CountStep(ideas, status, 3);
    CountStep(ideas, status, 2);
    CountStep(ideas, status, 1);
    CountStep(ideas, status, 0);
    assert ideas[0..] == ideas;
  }

  lemma SeedStatusCounts()
    ensures CountStatus(MockIdeas, Implemented) == 1
    ensures CountStatus(MockIdeas, UnderDevelopment) == 2
  {
    CountFive(MockIdeas, Implemented);
    CountFive(MockIdeas, UnderDevelopment);
  }

  /** Five ideas, one implemented, two under development, three fields. */
  lemma SeedStats()
    ensures FeedStats(MockIdeas) == Stats(5, 1, 2, 3)
  {
    SeedFieldOptions();
    SeedStatusCounts();
  }
}

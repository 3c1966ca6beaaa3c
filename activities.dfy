/** The activities page (pages/Activities.tsx): a fixed list of activity
    cards, narrowed to one category or shown whole, and ordered by title
    A to Z, Z to A, or left in list order; plus the category choices. */
module Activities {
  import opened Common
  import opened Sorting
  import opened Text

  /** A card: its category, the route it links to, its title and its line
      of description (the icon and the detail-page state are not modelled). */
  datatype ActivityCard = ActivityCard(category: string, to: string, title: string, description: string)

  const ActivitiesData: seq<ActivityCard> := [
    ActivityCard("Core Actions", "/scan", "Scan a Civil ID", "Verify another citizen's score"),
    ActivityCard("Core Actions", "/report-crime", "Report an Incident", "Help keep your community safe"),
    ActivityCard("Community", "/activity-detail", "Environmental Care", "Participate in clean-ups and green initiatives."),
    ActivityCard("Community", "/activity-detail", "Community Volunteering", "Help at local facilities and events"),
    ActivityCard("Community", "/activity-detail", "Animal Welfare Hub", "Endorse assistance from our partners"),
    ActivityCard("Health", "/health-initiatives", "Health Initiatives", "Donate blood or volunteer at camps"),
    ActivityCard("Civic", "/activity-detail", "Civic Duty", "Report civic issues like potholes"),
    ActivityCard("Other", "/submit-activity", "Submit Other Activity", "Have another activity? Submit for review")
  ]

  /** The category filter: "All" passes every card. */
  predicate CategoryMatches(filter: string, a: ActivityCard) {
    filter == "All" || a.category == filter
  }

  /** The sort comparator for the chosen order: titles ascending for "A-Z",
      descending for "Z-A", and every pair equal otherwise. */
  function TitleCompare(sort: string): (ActivityCard, ActivityCard) -> int {
    (a: ActivityCard, b: ActivityCard) =>
      if sort == "A-Z" then LexCompare(a.title, b.title)
      else if sort == "Z-A" then LexCompare(b.title, a.title)
      else 0
  }

  /** `filteredActivities`: filter by category, then sort. */
  function FilteredActivities(data: seq<ActivityCard>, filter: string, sort: string): seq<ActivityCard> {
    SortBy(Filter(data, a => CategoryMatches(filter, a)), TitleCompare(sort))
  }

  /** `Array.from(new Set(xs))`: each value once, in order of first
      appearance. */
  function Distinct(s: seq<string>): (r: seq<string>)
    ensures forall i, j :: 0 <= i < j < |r| ==> r[i] != r[j]
    ensures forall x :: x in r <==> x in s
  {
    if s == [] then []
    else
      var d := Distinct(s[..|s| - 1]);
      assert forall x :: x in s <==> x in s[..|s| - 1] || x == s[|s| - 1];
      if s[|s| - 1] in d then d else d + [s[|s| - 1]]
  }

  /** The position of the first occurrence of `x` in `s`. */
  function FirstIndex(s: seq<string>, x: string): (k: nat)
    requires x in s
    ensures k < |s| && s[k] == x
    ensures forall m :: 0 <= m < k ==> s[m] != x
  {
    if s[0] == x then 0 else 1 + FirstIndex(s[1..], x)
  }

  /** Appending an element does not move the first occurrence of anything
      already there. */
  lemma FirstIndexSnoc(s: seq<string>, y: string, x: string)
    requires x in s
    ensures FirstIndex(s + [y], x) == FirstIndex(s, x)
  {
    var k := FirstIndex(s, x);
    var t := s + [y];
    assert t[k] == x;
    forall m | 0 <= m < k ensures t[m] != x {
      assert t[m] == s[m];
    }
  }

  /** `r` lists values of `s` in the order of their first occurrence in `s`. */
  ghost predicate InFirstOccurrenceOrder(r: seq<string>, s: seq<string>) {
    && (forall i :: 0 <= i < |r| ==> r[i] in s)
    && (forall i, j :: 0 <= i < j < |r| ==> FirstIndex(s, r[i]) < FirstIndex(s, r[j]))
  }

  /** Appending to `s` keeps the order of what was already listed. */
  lemma OrderSnoc(r: seq<string>, s: seq<string>, x: string)
    requires InFirstOccurrenceOrder(r, s)
    ensures InFirstOccurrenceOrder(r, s + [x])
  {
    forall i | 0 <= i < |r| ensures FirstIndex(s + [x], r[i]) == FirstIndex(s, r[i]) {
      FirstIndexSnoc(s, x, r[i]);
    }
  }

  /** A value new to `s` is listed after everything already listed. */
  lemma OrderAppendNew(r: seq<string>, s: seq<string>, x: string)
    requires InFirstOccurrenceOrder(r, s) && x !in s
    ensures InFirstOccurrenceOrder(r + [x], s + [x])
  {
    OrderSnoc(r, s, x);
    var t, q := s + [x], r + [x];
    assert FirstIndex(t, x) == |s|;
    forall i, j | 0 <= i < j < |q| ensures FirstIndex(t, q[i]) < FirstIndex(t, q[j]) {
      assert q[i] == r[i];
      if j < |r| {
        assert q[j] == r[j];
      } else {
        assert q[j] == x;
      }
    }
  }

  /** The distinct values come in the order of their first appearance. */
  lemma {:induction false} DistinctFirstOccurrenceOrder(s: seq<string>)
    ensures InFirstOccurrenceOrder(Distinct(s), s)
  {
    if s != [] {
      var init, x := s[..|s| - 1], s[|s| - 1];
      assert s == init + [x];
      DistinctFirstOccurrenceOrder(init);
      if x in Distinct(init) {
        OrderSnoc(Distinct(init), init, x);
      } else {
        OrderAppendNew(Distinct(init), init, x);
      }
    }
  }

  /** The category choices: "All" and then every category once. */
  function Categories(data: seq<ActivityCard>): seq<string> {
    ["All"] + Distinct(Map(data, (a: ActivityCard) => a.category))
  }

  /** A card is shown exactly when it is in the list and passes the category
      filter, whatever the order chosen. */
  lemma FilteredMembership(data: seq<ActivityCard>, filter: string, sort: string, a: ActivityCard)
    ensures a in FilteredActivities(data, filter, sort) <==> a in data && CategoryMatches(filter, a)
  {
    var kept := Filter(data, x => CategoryMatches(filter, x));
    var r := FilteredActivities(data, filter, sort);
    assert a in r <==> a in multiset(r);
    assert a in kept <==> a in multiset(kept);
    FilterMembership(data, x => CategoryMatches(filter, x), a);
  }

  /** Sorting neither adds nor drops a card: the shown cards are the
      filtered cards, each as often. */
  lemma FilteredPermutation(data: seq<ActivityCard>, filter: string, sort: string)
    ensures multiset(FilteredActivities(data, filter, sort)) == multiset(Filter(data, a => CategoryMatches(filter, a)))
  {
  }

  /** The page's initial choices, "All" and "Default", show the list as it
      is. */
  lemma DefaultShowsEverything(data: seq<ActivityCard>, sort: string)
    requires sort != "A-Z" && sort != "Z-A"
    ensures FilteredActivities(data, "All", sort) == data
  {
    FilterKeepsAll(data, a => CategoryMatches("All", a));
    SortByAllTies(data, TitleCompare(sort));
  }

  /** "A-Z" compares titles: a total preorder in which only equal titles tie. */
  lemma AscendingCompareValid()
    ensures ValidComparator(TitleCompare("A-Z"))
    ensures forall a, b :: Tie(TitleCompare("A-Z"), a, b) <==> a.title == b.title
  {
    var cmp := TitleCompare("A-Z");
    forall a: ActivityCard, b: ActivityCard ensures cmp(a, b) <= 0 || cmp(b, a) <= 0 {
      LexCompareAntisymmetric(a.title, b.title);
    }
    forall a: ActivityCard, b: ActivityCard, c: ActivityCard | cmp(a, b) <= 0 && cmp(b, c) <= 0
      ensures cmp(a, c) <= 0
    {
      LexCompareTransitive(a.title, b.title, c.title);
    }
    forall a: ActivityCard, b: ActivityCard ensures Tie(cmp, a, b) <==> a.title == b.title {
      LexCompareAntisymmetric(a.title, b.title);
      LexCompareZero(a.title, b.title);
    }
  }

  /** "Z-A" compares titles the other way round: again a total preorder in
      which only equal titles tie. */
  lemma DescendingCompareValid()
    ensures ValidComparator(TitleCompare("Z-A"))
    ensures forall a, b :: Tie(TitleCompare("Z-A"), a, b) <==> a.title == b.title
  {
    var cmp := TitleCompare("Z-A");
    forall a: ActivityCard, b: ActivityCard ensures cmp(a, b) <= 0 || cmp(b, a) <= 0 {
      LexCompareAntisymmetric(a.title, b.title);
    }
    forall a: ActivityCard, b: ActivityCard, c: ActivityCard | cmp(a, b) <= 0 && cmp(b, c) <= 0
      ensures cmp(a, c) <= 0
    {
      LexCompareTransitive(c.title, b.title, a.title);
    }
    forall a: ActivityCard, b: ActivityCard ensures Tie(cmp, a, b) <==> a.title == b.title {
      LexCompareAntisymmetric(a.title, b.title);
      LexCompareZero(b.title, a.title);
    }
  }

  lemma TitleCompareValid(sort: string)
    ensures ValidComparator(TitleCompare(sort))
  {
    if sort == "A-Z" {
      AscendingCompareValid();
    } else if sort == "Z-A" {
      DescendingCompareValid();
    } else {
      assert forall a, b :: TitleCompare(sort)(a, b) == 0;
    }
  }

  /** "A-Z" shows the titles in ascending order. */
  lemma AscendingByTitle(data: seq<ActivityCard>, filter: string)
    ensures var r := FilteredActivities(data, filter, "A-Z");
      forall i, j :: 0 <= i < j < |r| ==> LexCompare(r[i].title, r[j].title) <= 0
  {
    AscendingCompareValid();
    SortBySorted(Filter(data, a => CategoryMatches(filter, a)), TitleCompare("A-Z"));
  }

  /** "Z-A" shows the titles in descending order. */
  lemma DescendingByTitle(data: seq<ActivityCard>, filter: string)
    ensures var r := FilteredActivities(data, filter, "Z-A");
      forall i, j :: 0 <= i < j < |r| ==> LexCompare(r[j].title, r[i].title) <= 0
  {
    DescendingCompareValid();
    SortBySorted(Filter(data, a => CategoryMatches(filter, a)), TitleCompare("Z-A"));
  }

  /** Cards that compare equal keep their list order. */
  lemma FilteredStable(data: seq<ActivityCard>, filter: string, sort: string, k: ActivityCard)
    ensures Filter(FilteredActivities(data, filter, sort), TieWith(TitleCompare(sort), k))
         == Filter(Filter(data, a => CategoryMatches(filter, a)), TieWith(TitleCompare(sort), k))
  {
    TitleCompareValid(sort);
    SortByStable(Filter(data, a => CategoryMatches(filter, a)), TitleCompare(sort), k);
  }

  /** Every category of the list is offered once, after "All", and nothing
      else is offered. */
  lemma CategoriesOffered(data: seq<ActivityCard>, c: string)
    ensures c in Categories(data) <==> c == "All" || exists i :: 0 <= i < |data| && data[i].category == c
  {
    var cats := Map(data, (a: ActivityCard) => a.category);
    if c in cats {
      var i :| 0 <= i < |cats| && cats[i] == c;
      assert data[i].category == c;
    }
    if exists i :: 0 <= i < |data| && data[i].category == c {
      var i :| 0 <= i < |data| && data[i].category == c;
      assert cats[i] == c;
    }
  }

  /** No category is offered twice when none of them is named "All". */
  lemma CategoriesDistinct(data: seq<ActivityCard>)
    requires forall i :: 0 <= i < |data| ==> data[i].category != "All"
    ensures var r := Categories(data); forall i, j :: 0 <= i < j < |r| ==> r[i] != r[j]
  {
    var cats := Map(data, (a: ActivityCard) => a.category);
    var d := Distinct(cats);
    var r := Categories(data);
    forall j | 1 <= j < |r| ensures r[j] != "All" {
      assert r[j] == d[j - 1];
      assert d[j - 1] in cats;
    }
  }
}

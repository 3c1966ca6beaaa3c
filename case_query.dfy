/** The case queue of the police dashboard: the cases shown in the list are
    the stored cases kept by the status filter, then by the free-text search,
    then sorted by the chosen key (pages/PoliceDashboard.tsx, `filteredCases`). */
module CaseQuery {
  import opened Common
  import opened Sorting
  import opened Text
  import opened CaseTypes

  /** The status drop-down: `'All'` or one of the seven statuses. */
  datatype StatusFilter = AllStatuses | OnlyStatus(status: CaseStatus)

  /** The sort drop-down. */
  datatype SortKey = ByFirDate | ByCaseType

  predicate StatusMatches(filter: StatusFilter, c: Case) {
    filter.AllStatuses? || c.status == filter.status
  }

  function FilterByStatus(cases: seq<Case>, filter: StatusFilter): seq<Case> {
    Filter(cases, c => StatusMatches(filter, c))
  }

  /** `involvedPersons.some(p => p.name.toLowerCase().includes(q))`. */
  predicate SomePersonIncludes(persons: seq<Person>, q: string) {
    exists i :: 0 <= i < |persons| && Includes(ToLower(persons[i].name), q)
  }

  /** The search test for an already normalised query `q`. */
  predicate MatchesQuery(c: Case, q: string) {
    || Includes(ToLower(c.description), q)
    || Includes(ToLower(c.location.address), q)
    || Includes(ToLower(c.complainant.name), q)
    || Includes(ToLower(c.caseType), q)
    || Includes(ToLower(c.firNumber), q)
    || SomePersonIncludes(c.involvedPersons, q)
    || Includes(NatToDecimal(c.id), q)
  }

  /** The query as the search compares it: lower-cased, then trimmed. */
  function NormalizedQuery(query: string): string {
    Trim(ToLower(query))
  }

  /** A query that trims to nothing keeps every case. */
  function SearchCases(cases: seq<Case>, query: string): seq<Case> {
    if Trim(query) == [] then cases
    else Filter(cases, c => MatchesQuery(c, NormalizedQuery(query)))
  }

  /** The sort comparator: case type by `localeCompare`, or FIR time, newest
      first. */
  function CaseCompare(key: SortKey): (Case, Case) -> int {
    match key
    case ByCaseType => (a: Case, b: Case) => LexCompare(a.caseType, b.caseType)
    case ByFirDate => (a: Case, b: Case) => b.firDate - a.firDate
  }

  /** The visible queue. */
  function VisibleCases(cases: seq<Case>, filter: StatusFilter, query: string, key: SortKey): (r: seq<Case>)
    ensures multiset(r) == multiset(SearchCases(FilterByStatus(cases, filter), query))
  {
    SortBy(SearchCases(FilterByStatus(cases, filter), query), CaseCompare(key))
  }

  /** Every text the search looks into, lower-cased where the search lower-cases. */
  function SearchableTexts(c: Case): seq<string> {
    [ToLower(c.description), ToLower(c.location.address), ToLower(c.complainant.name),
     ToLower(c.caseType), ToLower(c.firNumber), NatToDecimal(c.id)]
    + Map(c.involvedPersons, (p: Person) => ToLower(p.name))
  }

  /** `'All'` keeps every case, in order. */
  lemma FilterAllKeepsEverything(cases: seq<Case>)
    ensures FilterByStatus(cases, AllStatuses) == cases
  {
    FilterKeepsAll(cases, c => StatusMatches(AllStatuses, c));
  }

  /** A status keeps exactly the cases in that status. */
  lemma FilterStatusMembership(cases: seq<Case>, s: CaseStatus, c: Case)
    ensures c in FilterByStatus(cases, OnlyStatus(s)) <==> c in cases && c.status == s
  {
    FilterMembership(cases, c => StatusMatches(OnlyStatus(s), c), c);
  }

  /** The status filter keeps relative order: filtering a list cut in two
      filters each part in place. */
  lemma FilterStatusKeepsOrder(a: seq<Case>, b: seq<Case>, filter: StatusFilter)
    ensures FilterByStatus(a + b, filter) == FilterByStatus(a, filter) + FilterByStatus(b, filter)
  {
    FilterConcat(a, b, c => StatusMatches(filter, c));
  }

  /** A blank query keeps every case. */
  lemma BlankSearchKeepsEverything(cases: seq<Case>, query: string)
    requires IsBlank(query)
    ensures SearchCases(cases, query) == cases
  {
    TrimEmptyIffBlank(query);
  }

  /** A non-blank query keeps exactly the matching cases. */
  lemma SearchMembership(cases: seq<Case>, query: string, c: Case)
    requires !IsBlank(query)
    ensures c in SearchCases(cases, query) <==> c in cases && MatchesQuery(c, NormalizedQuery(query))
  {
    TrimEmptyIffBlank(query);
    FilterMembership(cases, c => MatchesQuery(c, NormalizedQuery(query)), c);
  }

  lemma MatchFoundInText(c: Case, q: string) returns (t: string)
    requires MatchesQuery(c, q)
    ensures t in SearchableTexts(c) && Includes(t, q)
  {
    var texts := SearchableTexts(c);
    if SomePersonIncludes(c.involvedPersons, q) {
      var k :| 0 <= k < |c.involvedPersons| && Includes(ToLower(c.involvedPersons[k].name), q);
      t := texts[6 + k];
    } else if Includes(texts[0], q) {
      t := texts[0];
    } else if Includes(texts[1], q) {
      t := texts[1];
    } else if Includes(texts[2], q) {
      t := texts[2];
    } else if Includes(texts[3], q) {
      t := texts[3];
    } else if Includes(texts[4], q) {
      t := texts[4];
    } else {
      t := texts[5];
    }
  }

  lemma TextFoundMatches(c: Case, q: string, n: nat)
    requires n < |SearchableTexts(c)| && Includes(SearchableTexts(c)[n], q)
    ensures MatchesQuery(c, q)
  {
    if n >= 6 {
      assert SearchableTexts(c)[n] == ToLower(c.involvedPersons[n - 6].name);
    }
  }

  /** A case matches exactly when the query occurs, at some position, in one
      of its searchable texts. */
  lemma MatchesQueryIff(c: Case, q: string)
    ensures MatchesQuery(c, q) <==> exists t, i :: t in SearchableTexts(c) && OccursAt(t, q, i)
  {
    var texts := SearchableTexts(c);
    if MatchesQuery(c, q) {
      var t := MatchFoundInText(c, q);
      IncludesIff(t, q);
    }
    if exists t, i :: t in texts && OccursAt(t, q, i) {
      var t, i :| t in texts && OccursAt(t, q, i);
      IncludesIff(t, q);
      var n :| 0 <= n < |texts| && texts[n] == t;
      TextFoundMatches(c, q, n);
    }
  }

  /** The status filter and the search may be applied in either order. */
  lemma SearchAndStatusCommute(cases: seq<Case>, filter: StatusFilter, query: string)
    ensures SearchCases(FilterByStatus(cases, filter), query)
         == FilterByStatus(SearchCases(cases, query), filter)
  {
    if Trim(query) != [] {
      FilterFilter(cases, c => StatusMatches(filter, c), c => MatchesQuery(c, NormalizedQuery(query)));
    }
  }

  /** Newest first is a total preorder; cases tie exactly at equal FIR time. */
  lemma FirDateCompareValid()
    ensures ValidComparator(CaseCompare(ByFirDate))
    ensures forall a, b :: Tie(CaseCompare(ByFirDate), a, b) <==> a.firDate == b.firDate
  {
    var cmp := CaseCompare(ByFirDate);
    assert forall a: Case, b: Case :: cmp(a, b) == b.firDate - a.firDate;
  }

  /** Case-type order is a total preorder; cases tie exactly at equal type. */
  lemma CaseTypeCompareValid()
    ensures ValidComparator(CaseCompare(ByCaseType))
    ensures forall a, b :: Tie(CaseCompare(ByCaseType), a, b) <==> a.caseType == b.caseType
  {
    var cmp := CaseCompare(ByCaseType);
    LexCompareValid();
    forall a: Case, b: Case ensures cmp(a, b) == LexCompare(a.caseType, b.caseType) {
    }
    forall a: Case, b: Case, c: Case | cmp(a, b) <= 0 && cmp(b, c) <= 0 ensures cmp(a, c) <= 0 {
      LexCompareTransitive(a.caseType, b.caseType, c.caseType);
    }
    forall a: Case, b: Case ensures Tie(cmp, a, b) <==> a.caseType == b.caseType {
      assert Tie(LexCompare, a.caseType, b.caseType) <==> a.caseType == b.caseType;
    }
  }

  lemma CaseCompareValid(key: SortKey)
    ensures ValidComparator(CaseCompare(key))
  {
    if key == ByCaseType {
      CaseTypeCompareValid();
    } else {
      FirDateCompareValid();
    }
  }

  /** A case is visible exactly when it is stored, passes the status filter and
      matches the search. */
  lemma VisibleMembership(cases: seq<Case>, filter: StatusFilter, query: string, key: SortKey, c: Case)
    ensures c in VisibleCases(cases, filter, query, key)
        <==> c in cases && StatusMatches(filter, c)
             && (IsBlank(query) || MatchesQuery(c, NormalizedQuery(query)))
  {
    var r := VisibleCases(cases, filter, query, key);
    var byStatus := FilterByStatus(cases, filter);
    assert c in r <==> c in multiset(r);
    FilterMembership(cases, c => StatusMatches(filter, c), c);
    TrimEmptyIffBlank(query);
    if !IsBlank(query) {
      FilterMembership(byStatus, c => MatchesQuery(c, NormalizedQuery(query)), c);
    }
  }

  /** Sorted by FIR time: newest first. */
  lemma VisibleNewestFirst(cases: seq<Case>, filter: StatusFilter, query: string)
    ensures var r := VisibleCases(cases, filter, query, ByFirDate);
      forall i, j :: 0 <= i < j < |r| ==> r[i].firDate >= r[j].firDate
  {
    CaseCompareValid(ByFirDate);
    SortBySorted(SearchCases(FilterByStatus(cases, filter), query), CaseCompare(ByFirDate));
  }

  /** Sorted by case type: ascending. */
  lemma VisibleByCaseTypeAscending(cases: seq<Case>, filter: StatusFilter, query: string)
    ensures var r := VisibleCases(cases, filter, query, ByCaseType);
      forall i, j :: 0 <= i < j < |r| ==> LexCompare(r[i].caseType, r[j].caseType) <= 0
  {
    CaseCompareValid(ByCaseType);
    SortBySorted(SearchCases(FilterByStatus(cases, filter), query), CaseCompare(ByCaseType));
  }

  /** Cases with equal keys keep the order they had after filtering. */
  lemma VisibleStable(cases: seq<Case>, filter: StatusFilter, query: string, key: SortKey, k: Case)
    ensures Filter(VisibleCases(cases, filter, query, key), TieWith(CaseCompare(key), k))
         == Filter(SearchCases(FilterByStatus(cases, filter), query), TieWith(CaseCompare(key), k))
  {
    CaseCompareValid(key);
    SortByStable(SearchCases(FilterByStatus(cases, filter), query), CaseCompare(key), k);
  }
}

/** The civil score of a citizen (hooks/useCivilScore.ts): the citizen's
    activities are split by the sign of their points, each weighted by how
    recent it is, added to the base score of 50, rounded and clamped to
    0..100, and mapped to a tier; the two lists are shown newest first.
    The decay weight `Math.exp(-daysSince(date) / 365)` reads the clock and
    uses floating point, so it is a parameter here: any function of the
    activity, positive where that matters. */
module CivilScore {
  import opened Common

  const BaseScore := 50

  datatype Activity = Activity(date: string, description: string, points: int)

  datatype ActivityLog = ActivityLog(id: string, activities: seq<Activity>)

  /** A breakdown line: the description and the weighted points. */
  datatype Entry = Entry(description: string, points: real)

  datatype Tier = Gold | Silver | Bronze

  datatype Breakdown = Breakdown(
    baseScore: int,
    positiveActivities: seq<Entry>,
    negativeActivities: seq<Entry>,
    totalPositive: int,
    totalNegative: int)

  datatype ScoreData = ScoreData(score: int, tier: Tier, breakdown: Breakdown)

  predicate Positive(a: Activity) { a.points > 0 }

  predicate Negative(a: Activity) { a.points < 0 }

  predicate Neutral(a: Activity) { a.points == 0 }

  /** `n * w`, written as repeated addition so that the sums below stay
      linear arithmetic for the verifier. */
  function Times(n: int, w: real): real
    decreases if n < 0 then -n else n
  {
    if n == 0 then 0.0 else if n > 0 then Times(n - 1, w) + w else Times(n + 1, w) - w
  }

  /** `Times` is multiplication. */
  lemma {:induction false} TimesIsProduct(n: int, w: real)
    ensures Times(n, w) == n as real * w
    decreases if n < 0 then -n else n
  {
    if n > 0 {
      TimesIsProduct(n - 1, w);
    } else if n < 0 {
      TimesIsProduct(n + 1, w);
    }
  }

  /** The activity's points scaled by its weight: `activity.points * weight`. */
  function Weighted(a: Activity, weight: Activity -> real): real {
    Times(a.points, weight(a))
  }

  /** The sum of the weighted points, added in list order. */
  function Total(acts: seq<Activity>, weight: Activity -> real): real {
    if acts == [] then 0.0 else Total(acts[..|acts| - 1], weight) + Weighted(acts[|acts| - 1], weight)
  }

  function EntryOf(a: Activity, weight: Activity -> real): Entry {
    Entry(a.description, Weighted(a, weight))
  }

  function Entries(acts: seq<Activity>, weight: Activity -> real): seq<Entry> {
    Map(acts, a => EntryOf(a, weight))
  }

  /** `Math.round`: the nearest integer, halves rounded up. */
  function Round(x: real): (r: int)
    ensures x - 0.5 < r as real <= x + 0.5
  {
    (x + 0.5).Floor
  }

  /** `Math.max(0, Math.min(100, n))`. */
  function Clamp(n: int): (r: int)
    ensures 0 <= r <= 100
    ensures 0 <= n <= 100 ==> r == n
    ensures n < 0 ==> r == 0
    ensures n > 100 ==> r == 100
  {
    if n > 100 then 100 else if n < 0 then 0 else n
  }

  /** The tier thresholds. */
  function TierOf(score: int): (t: Tier)
    ensures t == Gold <==> score >= 56
    ensures t == Silver <==> 46 <= score < 56
    ensures t == Bronze <==> score < 46
  {
    if score >= 56 then Gold else if score >= 46 then Silver else Bronze
  }

  /** `activityLogs.find(log => log.id === userId)`; no user finds nothing. */
  function FindLog(logs: seq<ActivityLog>, userId: Option<string>): (r: Option<ActivityLog>)
    ensures r.Some? ==> userId.Some? && r.value in logs && r.value.id == userId.value
    ensures r.None? <==> userId.None? || forall i :: 0 <= i < |logs| ==> logs[i].id != userId.value
  {
    if userId.None? || logs == [] then None
    else if logs[0].id == userId.value then Some(logs[0])
    else
      assert forall i :: 1 <= i < |logs| ==> logs[i] == logs[1..][i - 1];
      FindLog(logs[1..], userId)
  }

  function ActivitiesOf(logs: seq<ActivityLog>, userId: Option<string>): seq<Activity> {
    match FindLog(logs, userId)
    case Some(log) => log.activities
    case None => []
  }

  /** The unrounded score: the base plus both weighted totals. */
  function RawScore(totalPositive: real, totalNegative: real): real {
    BaseScore as real + totalPositive + totalNegative
  }

  /** The breakdown of a list of activities: both lists newest first, and
      the rounded weighted totals. */
  function BreakdownOf(acts: seq<Activity>, weight: Activity -> real): Breakdown {
    var pos, neg := Filter(acts, Positive), Filter(acts, Negative);
    Breakdown(BaseScore, Reverse(Entries(pos, weight)), Reverse(Entries(neg, weight)),
              Round(Total(pos, weight)), Round(Total(neg, weight)))
  }

  /** What `useCivilScore(userId)` returns (without the icons and colours of
      the tier). */
  function CivilScoreOf(logs: seq<ActivityLog>, userId: Option<string>, weight: Activity -> real): (r: ScoreData)
    ensures 0 <= r.score <= 100
    ensures r.tier == TierOf(r.score)
    ensures r.breakdown.baseScore == BaseScore
  {
    var acts := ActivitiesOf(logs, userId);
    var score := Clamp(Round(RawScore(Total(Filter(acts, Positive), weight), Total(Filter(acts, Negative), weight))));
    ScoreData(score, TierOf(score), BreakdownOf(acts, weight))
  }

  /** `list.reverse()`, in place. */
  method ReverseInPlace<T>(a: array<T>)
    modifies a
    ensures a[..] == Reverse(old(a[..]))
  {
    var n := a.Length;
    var i := 0;
    while i < n / 2
      invariant 0 <= i <= n / 2
      invariant forall k :: 0 <= k < i ==> a[k] == old(a[n - 1 - k]) && a[n - 1 - k] == old(a[k])
      invariant forall k :: i <= k < n - i ==> a[k] == old(a[k])
    {
      a[i], a[n - 1 - i] := a[n - 1 - i], a[i];
      i := i + 1;
    }
    ReverseAt(old(a[..]));
  }

  /** What the loop has gathered so far: both totals and both lists. */
  datatype Tally = Tally(totalPositive: real, totalNegative: real, positives: seq<Entry>, negatives: seq<Entry>)

  /** One turn of the loop: the activity's weighted points go to the total
      and the list of their sign; zero points go nowhere. */
  function AddActivity(t: Tally, a: Activity, weight: Activity -> real): Tally {
    var w := Weighted(a, weight);
    if a.points > 0 then t.(totalPositive := t.totalPositive + w, positives := t.positives + [Entry(a.description, w)])
    else if a.points < 0 then t.(totalNegative := t.totalNegative + w, negatives := t.negatives + [Entry(a.description, w)])
    else t
  }

  /** The loop run over a whole list. */
  function TallyOf(acts: seq<Activity>, weight: Activity -> real): Tally {
    if acts == [] then Tally(0.0, 0.0, [], [])
    else AddActivity(TallyOf(acts[..|acts| - 1], weight), acts[|acts| - 1], weight)
  }

  /** One more activity: the filtered prefix grows by it exactly when it
      passes. */
  lemma FilterStep(acts: seq<Activity>, i: nat, p: Activity -> bool)
    requires i < |acts|
    ensures Filter(acts[..i + 1], p) == Filter(acts[..i], p) + (if p(acts[i]) then [acts[i]] else [])
  {
    assert acts[..i + 1] == acts[..i] + [acts[i]];
    FilterConcat(acts[..i], [acts[i]], p);
    FilterSingle(acts[i], p);
  }

  lemma TotalSnoc(acts: seq<Activity>, a: Activity, weight: Activity -> real)
    ensures Total(acts + [a], weight) == Total(acts, weight) + Weighted(a, weight)
  {
    assert (acts + [a])[..|acts|] == acts;
  }

  lemma EntriesSnoc(acts: seq<Activity>, a: Activity, weight: Activity -> real)
    ensures Entries(acts + [a], weight) == Entries(acts, weight) + [EntryOf(a, weight)]
  {
    var l, r := Entries(acts + [a], weight), Entries(acts, weight) + [EntryOf(a, weight)];
    assert |l| == |r|;
    forall k | 0 <= k < |l| ensures l[k] == r[k] {
      if k < |acts| {
        assert (acts + [a])[k] == acts[k];
      }
    }
  }

  /** The loop's positive side is the weighted total and the list of the
      activities with positive points, in list order. */
  lemma {:induction false} TallyPositive(acts: seq<Activity>, weight: Activity -> real)
    ensures TallyOf(acts, weight).totalPositive == Total(Filter(acts, Positive), weight)
    ensures TallyOf(acts, weight).positives == Entries(Filter(acts, Positive), weight)
  {
    if acts != [] {
      var n := |acts| - 1;
      var prefix := Filter(acts[..n], Positive);
      TallyPositive(acts[..n], weight);
      FilterStep(acts, n, Positive);
      assert acts[..n + 1] == acts;
      var t := TallyOf(acts[..n], weight);
      assert TallyOf(acts, weight) == AddActivity(t, acts[n], weight);
      if acts[n].points > 0 {
        assert Filter(acts, Positive) == prefix + [acts[n]];
        TotalSnoc(prefix, acts[n], weight);
        assert TallyOf(acts, weight).totalPositive == t.totalPositive + Weighted(acts[n], weight);
        EntriesSnoc(prefix, acts[n], weight);
        assert TallyOf(acts, weight).positives == t.positives + [EntryOf(acts[n], weight)];
      } else {
        assert Filter(acts, Positive) == prefix;
        assert TallyOf(acts, weight).totalPositive == t.totalPositive;
      }
    }
  }

  /** The loop's negative side is the weighted total and the list of the
      activities with negative points, in list order. */
  lemma {:induction false} TallyNegative(acts: seq<Activity>, weight: Activity -> real)
    ensures TallyOf(acts, weight).totalNegative == Total(Filter(acts, Negative), weight)
    ensures TallyOf(acts, weight).negatives == Entries(Filter(acts, Negative), weight)
  {
    if acts != [] {
      var n := |acts| - 1;
      var prefix := Filter(acts[..n], Negative);
      TallyNegative(acts[..n], weight);
      FilterStep(acts, n, Negative);
      assert acts[..n + 1] == acts;
      var t := TallyOf(acts[..n], weight);
      assert TallyOf(acts, weight) == AddActivity(t, acts[n], weight);
      if acts[n].points < 0 {
        assert Filter(acts, Negative) == prefix + [acts[n]];
        TotalSnoc(prefix, acts[n], weight);
        assert TallyOf(acts, weight).totalNegative == t.totalNegative + Weighted(acts[n], weight);
        EntriesSnoc(prefix, acts[n], weight);
        assert TallyOf(acts, weight).negatives == t.negatives + [EntryOf(acts[n], weight)];
      } else {
        assert Filter(acts, Negative) == prefix;
        assert TallyOf(acts, weight).totalNegative == t.totalNegative;
      }
    }
  }

  /** The loop of `useCivilScore`: one pass over the activities that adds
      each weighted value to the total of its sign and pushes its breakdown
      line onto the list of its sign; zero-point activities go nowhere. */
  method SplitBySign(acts: seq<Activity>, weight: Activity -> real)
    returns (totalPositive: real, totalNegative: real, positives: seq<Entry>, negatives: seq<Entry>)
    ensures totalPositive == Total(Filter(acts, Positive), weight)
    ensures totalNegative == Total(Filter(acts, Negative), weight)
    ensures positives == Entries(Filter(acts, Positive), weight)
    ensures negatives == Entries(Filter(acts, Negative), weight)
  {
    totalPositive, totalNegative := 0.0, 0.0;
    positives, negatives := [], [];
    var i := 0;
    while i < |acts|
      invariant 0 <= i <= |acts|
      invariant Tally(totalPositive, totalNegative, positives, negatives) == TallyOf(acts[..i], weight)
    {
      var a := acts[i];
      var weighted := Weighted(a, weight);
      if a.points > 0 {
        totalPositive := totalPositive + weighted;
        positives := positives + [Entry(a.description, weighted)];
      } else if a.points < 0 {
        totalNegative := totalNegative + weighted;
        negatives := negatives + [Entry(a.description, weighted)];
      }
      assert acts[..i + 1][..i] == acts[..i];
      i := i + 1;
    }
    assert acts[..|acts|] == acts;
    TallyPositive(acts, weight);
    TallyNegative(acts, weight);
  }

  /** Copies a list into a fresh array and reverses it there. */
  method ReversedList(s: seq<Entry>) returns (r: seq<Entry>)
    ensures r == Reverse(s)
  {
    var list := new Entry[|s|](k requires 0 <= k < |s| => s[k]);
    assert list[..] == s;
    ReverseInPlace(list);
    r := list[..];
  }

  /** `useCivilScore`: the pass over the activities, then the rounded and
      clamped score, the tier, and both lists reversed. */
  method UseCivilScore(logs: seq<ActivityLog>, userId: Option<string>, weight: Activity -> real)
    returns (data: ScoreData)
    ensures data == CivilScoreOf(logs, userId, weight)
  {
    var acts := ActivitiesOf(logs, userId);
    var totalPositive, totalNegative, positives, negatives := SplitBySign(acts, weight);
    ghost var pos, neg := Filter(acts, Positive), Filter(acts, Negative);

    var rawScore := BaseScore as real + totalPositive + totalNegative;
    assert rawScore == RawScore(totalPositive, totalNegative);
    var score := Round(rawScore);
    if score > 100 {
      score := 100;
    }
    if score < 0 {
      score := 0;
    }

    var tier;
    if score >= 56 {
      tier := Gold;
    } else if score >= 46 {
      tier := Silver;
    } else {
      tier := Bronze;
    }

    assert score == Clamp(Round(rawScore));
    assert tier == TierOf(score);
    positives := ReversedList(positives);
    negatives := ReversedList(negatives);
    data := ScoreData(score, tier,
      Breakdown(BaseScore, positives, negatives, Round(totalPositive), Round(totalNegative)));
    assert positives == Reverse(Entries(pos, weight));
    assert negatives == Reverse(Entries(neg, weight));
  }

  /** Every activity goes to exactly one of: the positive list, the negative
      list, or neither (zero points). */
  lemma PartitionBySign(acts: seq<Activity>)
    ensures multiset(Filter(acts, Positive)) + multiset(Filter(acts, Negative)) + multiset(Filter(acts, Neutral))
         == multiset(acts)
  {
    FilterPartition(acts, Positive, Negative, Neutral);
  }

  /** The positive list holds exactly the activities with positive points, and
      the negative list exactly those with negative points. */
  lemma SignMembership(acts: seq<Activity>, a: Activity)
    ensures a in Filter(acts, Positive) <==> a in acts && a.points > 0
    ensures a in Filter(acts, Negative) <==> a in acts && a.points < 0
  {
    FilterMembership(acts, Positive, a);
    FilterMembership(acts, Negative, a);
  }

  /** The positive list of the breakdown shows the activities with
      positive points last one first. */
  lemma {:induction false} PositivesNewestFirst(acts: seq<Activity>, weight: Activity -> real, k: nat)
    requires k < |Filter(acts, Positive)|
    ensures var pos := Filter(acts, Positive);
      |BreakdownOf(acts, weight).positiveActivities| == |pos|
      && BreakdownOf(acts, weight).positiveActivities[k] == EntryOf(pos[|pos| - 1 - k], weight)
  {
    var e := Entries(Filter(acts, Positive), weight);
    assert BreakdownOf(acts, weight).positiveActivities == Reverse(e);
    ReverseAt(e);
  }

  /** The negative list of the breakdown shows the activities with
      negative points last one first. */
  lemma {:induction false} NegativesNewestFirst(acts: seq<Activity>, weight: Activity -> real, k: nat)
    requires k < |Filter(acts, Negative)|
    ensures var neg := Filter(acts, Negative);
      |BreakdownOf(acts, weight).negativeActivities| == |neg|
      && BreakdownOf(acts, weight).negativeActivities[k] == EntryOf(neg[|neg| - 1 - k], weight)
  {
    var e := Entries(Filter(acts, Negative), weight);
    assert BreakdownOf(acts, weight).negativeActivities == Reverse(e);
    ReverseAt(e);
  }

  /** A user without an activity log has the base score and is Silver. */
  lemma UnknownUserIsSilver(logs: seq<ActivityLog>, userId: Option<string>, weight: Activity -> real)
    requires userId.None? || forall i :: 0 <= i < |logs| ==> logs[i].id != userId.value
    ensures CivilScoreOf(logs, userId, weight) == ScoreData(50, Silver, Breakdown(50, [], [], 0, 0))
  {
  }

  /** A positive weight keeps the sign of the points. */
  lemma {:induction false} TimesSign(n: int, w: real)
    requires w > 0.0
    ensures n > 0 ==> Times(n, w) > 0.0
    ensures n < 0 ==> Times(n, w) < 0.0
    decreases if n < 0 then -n else n
  {
    if n > 0 {
      TimesSign(n - 1, w);
    } else if n < 0 {
      TimesSign(n + 1, w);
    }
  }

  lemma {:induction false} TotalSign(acts: seq<Activity>, weight: Activity -> real, positive: bool)
    requires forall a :: weight(a) > 0.0
    requires forall i :: 0 <= i < |acts| ==> if positive then acts[i].points > 0 else acts[i].points < 0
    ensures if positive then Total(acts, weight) >= 0.0 else Total(acts, weight) <= 0.0
  {
    if acts != [] {
      TotalSign(acts[..|acts| - 1], weight, positive);
      var a := acts[|acts| - 1];
      TimesSign(a.points, weight(a));
    }
  }

  /** With positive weights the positive total is never below zero and the
      negative total never above. */
  lemma TotalsSigns(logs: seq<ActivityLog>, userId: Option<string>, weight: Activity -> real)
    requires forall a :: weight(a) > 0.0
    ensures CivilScoreOf(logs, userId, weight).breakdown.totalPositive >= 0
    ensures CivilScoreOf(logs, userId, weight).breakdown.totalNegative <= 0
  {
    var acts := ActivitiesOf(logs, userId);
    TotalSign(Filter(acts, Positive), weight, true);
    TotalSign(Filter(acts, Negative), weight, false);
  }
}

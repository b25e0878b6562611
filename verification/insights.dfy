/**
 * Batch insights (lines 240-261): sentiment counts, the most frequent issue, the most frequent
 * issue among negative rows (absent when there is none), and the number of urgent rows.
 */
module Insights {
  import opened Wrappers
  import opened Errors
  import opened SentimentResolver
  import opened UrgencyClassifier
  import opened IssueClassifier
  import opened Pipeline

  /** Number of occurrences of `x` in `xs`. */
  function Occ<T(==)>(xs: seq<T>, x: T): nat {
    if |xs| == 0 then 0 else (if xs[0] == x then 1 else 0) + Occ(xs[1..], x)
  }

  lemma {:induction false} OccAppend<T>(xs: seq<T>, y: T, x: T)
    ensures Occ(xs + [y], x) == Occ(xs, x) + (if y == x then 1 else 0)
    decreases |xs|
  {
    if |xs| == 0 {
      assert xs + [y] == [y];
    } else {
      assert (xs + [y])[1..] == xs[1..] + [y];
      OccAppend(xs[1..], y, x);
    }
  }

  lemma {:induction false} OccPositive<T>(xs: seq<T>, x: T)
    ensures Occ(xs, x) > 0 <==> x in xs
    decreases |xs|
  {
    if |xs| > 0 {
      OccPositive(xs[1..], x);
      assert xs == [xs[0]] + xs[1..];
    }
  }

  lemma OccAppendAll<T>(xs: seq<T>, y: T)
    ensures forall x :: Occ(xs + [y], x) == Occ(xs, x) + (if y == x then 1 else 0)
  {
    forall x
      ensures Occ(xs + [y], x) == Occ(xs, x) + (if y == x then 1 else 0)
    {
      OccAppend(xs, y, x);
    }
  }

  /** `value_counts()`: every value present, mapped to how often it occurs. */
  function ValueCounts<T(==,!new)>(xs: seq<T>): (m: map<T, nat>)
    ensures forall x :: x in m <==> x in xs
    ensures forall x :: x in m ==> m[x] == Occ(xs, x)
    decreases |xs|
  {
    if |xs| == 0 then map[]
    else
      var init, last := xs[..|xs| - 1], xs[|xs| - 1];
      var m' := ValueCounts(init);
      assert xs == init + [last];
      OccAppendAll(init, last);
      OccPositive(init, last);
      m'[last := if last in m' then m'[last] + 1 else 1]
  }

  /**
   * `value_counts().idxmax()` on a non-empty column: no value occurs more often, and the
   * result sits at a position before which every value occurs strictly less often, so among
   * equally frequent values it is the one met first. The choice is the first maximal entry
   * of the per-row count column, the rule `FirstArgMax` also states for `np.argmax`.
   */
  function Mode<T(==,!new)>(xs: seq<T>): (m: T)
    requires |xs| > 0
    ensures forall j :: 0 <= j < |xs| ==> Occ(xs, xs[j]) <= Occ(xs, m)
    ensures exists p :: 0 <= p < |xs| && xs[p] == m && forall j :: 0 <= j < p ==> Occ(xs, xs[j]) < Occ(xs, m)
  {
    var counts := ValueCounts(xs);
    var scores := seq(|xs|, i requires 0 <= i < |xs| => counts[xs[i]] as real);
    var p := FirstArgMax(scores);
    assert forall j :: 0 <= j < |xs| ==> scores[j] == Occ(xs, xs[j]) as real;
    xs[p]
  }

  function Sentiments(rows: seq<ItemResult>): seq<Sentiment> {
    seq(|rows|, i requires 0 <= i < |rows| => rows[i].sentiment)
  }

  function Issues(rows: seq<ItemResult>): seq<string> {
    seq(|rows|, i requires 0 <= i < |rows| => rows[i].issue)
  }

  function Urgencies(rows: seq<ItemResult>): seq<Urgency> {
    seq(|rows|, i requires 0 <= i < |rows| => rows[i].urgency)
  }

  /** The (sentiment, issue) column pair of the frame. */
  function Pairs(rows: seq<ItemResult>): seq<(Sentiment, string)> {
    seq(|rows|, i requires 0 <= i < |rows| => (rows[i].sentiment, rows[i].issue))
  }

  /**
   * `neg["issue"]` with `neg = df[df["sentiment"] == "Negatif"]`: each issue appears as often as
   * there are negative rows carrying it.
   */
  function NegativeIssues(rows: seq<ItemResult>): (r: seq<string>)
    ensures |r| == Occ(Sentiments(rows), Negatif)
    ensures forall x :: x in r <==> exists i :: 0 <= i < |rows| && rows[i].sentiment == Negatif && rows[i].issue == x
    ensures forall x :: Occ(r, x) == Occ(Pairs(rows), (Negatif, x))
  {
    if |rows| == 0 then []
    else
      var head: seq<string> := if rows[0].sentiment == Negatif then [rows[0].issue] else [];
      var tail := NegativeIssues(rows[1..]);
      assert Pairs(rows)[1..] == Pairs(rows[1..]);
      assert |head| == 0 ==> head + tail == tail;
      assert |head| > 0 ==> (head + tail)[0] == rows[0].issue && (head + tail)[1..] == tail;
      assert Sentiments(rows)[1..] == Sentiments(rows[1..]);
      assert forall i :: 1 <= i < |rows| ==> rows[i] == rows[1..][i - 1];
      head + tail
  }

  /** A count read off `value_counts()`: zero when the value never occurs. */
  function CountOf<T>(counts: map<T, nat>, x: T): nat {
    if x in counts then counts[x] else 0
  }

  datatype Insight = Insight(
    sentimentCounts: map<Sentiment, nat>,
    topIssue: string,
    negativeIssue: Option<string>,
    highUrgency: nat)

  lemma {:induction false} SentimentOccSum(xs: seq<Sentiment>)
    ensures Occ(xs, Negatif) + Occ(xs, Netral) + Occ(xs, Positif) == |xs|
    decreases |xs|
  {
    if |xs| > 0 {
      SentimentOccSum(xs[1..]);
      assert xs[0].Negatif? || xs[0].Netral? || xs[0].Positif?;
    }
  }

  /** Every row counts towards exactly one sentiment. */
  lemma SentimentCountsSum(rows: seq<ItemResult>)
    ensures var counts := ValueCounts(Sentiments(rows));
      CountOf(counts, Negatif) + CountOf(counts, Netral) + CountOf(counts, Positif) == |rows|
  {
    var xs := Sentiments(rows);
    SentimentOccSum(xs);
    OccPositive(xs, Negatif);
    OccPositive(xs, Netral);
    OccPositive(xs, Positif);
  }

  /** The top issue is the issue of some row and no row's issue is more frequent. */
  lemma TopIssueFacts(rows: seq<ItemResult>)
    requires |rows| > 0
    ensures exists i :: 0 <= i < |rows| && rows[i].issue == Mode(Issues(rows))
    ensures forall i :: 0 <= i < |rows| ==> Occ(Issues(rows), rows[i].issue) <= Occ(Issues(rows), Mode(Issues(rows)))
  {
    var issues := Issues(rows);
    assert forall i :: 0 <= i < |rows| ==> issues[i] == rows[i].issue;
    var m := Mode(issues);
    var i :| 0 <= i < |issues| && issues[i] == m;
  }

  /** The negative subset is empty exactly when no row is negative; its mode is maximal there. */
  lemma NegativeIssueFacts(rows: seq<ItemResult>)
    ensures |NegativeIssues(rows)| == 0 <==> forall i :: 0 <= i < |rows| ==> rows[i].sentiment != Negatif
    ensures |NegativeIssues(rows)| > 0 ==>
      forall i :: 0 <= i < |rows| && rows[i].sentiment == Negatif ==>
        Occ(NegativeIssues(rows), rows[i].issue) <= Occ(NegativeIssues(rows), Mode(NegativeIssues(rows)))
    ensures |NegativeIssues(rows)| > 0 ==>
      exists i :: 0 <= i < |rows| && rows[i].sentiment == Negatif && rows[i].issue == Mode(NegativeIssues(rows))
  {
    var neg := NegativeIssues(rows);
    if |neg| > 0 {
      assert neg[0] in neg;
      var m := Mode(neg);
      var p :| 0 <= p < |neg| && neg[p] == m;
      assert m in neg;
      forall i | 0 <= i < |rows| && rows[i].sentiment == Negatif
        ensures Occ(neg, rows[i].issue) <= Occ(neg, m)
      {
        assert rows[i].issue in neg;
        var j :| 0 <= j < |neg| && neg[j] == rows[i].issue;
      }
    }
  }

  lemma SentimentKeys(rows: seq<ItemResult>)
    ensures forall s :: s in ValueCounts(Sentiments(rows)) <==>
      exists i :: 0 <= i < |rows| && rows[i].sentiment == s
  {
    var xs := Sentiments(rows);
    assert forall i :: 0 <= i < |rows| ==> xs[i] == rows[i].sentiment;
    forall s | s in xs
      ensures exists i :: 0 <= i < |rows| && rows[i].sentiment == s
    {
      var i :| 0 <= i < |xs| && xs[i] == s;
    }
  }

  /** Reading a sentiment's count off `value_counts()` gives its number of occurrences, zero included. */
  lemma SentimentCountsExact(rows: seq<ItemResult>)
    ensures forall s :: CountOf(ValueCounts(Sentiments(rows)), s) == Occ(Sentiments(rows), s)
  {
    forall s {
      OccPositive(Sentiments(rows), s);
    }
  }

  /**
   * Lines 241-261. An empty batch has no most frequent issue (`idxmax` raises), so it is an
   * error rather than a set of zero counts.
   */
  function Summarize(rows: seq<ItemResult>): (r: Result<Insight, Error>)
    ensures r.Failure? <==> |rows| == 0
    ensures r.Failure? ==> r.error == EmptyBatch
    ensures r.Success? ==>
      var ins := r.value;
      && (forall s :: s in ins.sentimentCounts <==> exists i :: 0 <= i < |rows| && rows[i].sentiment == s)
      && (forall s :: CountOf(ins.sentimentCounts, s) == Occ(Sentiments(rows), s))
      && CountOf(ins.sentimentCounts, Negatif) + CountOf(ins.sentimentCounts, Netral)
           + CountOf(ins.sentimentCounts, Positif) == |rows|
      && ins.highUrgency == Occ(Urgencies(rows), Tinggi)
      && (exists i :: 0 <= i < |rows| && rows[i].issue == ins.topIssue)
      && (forall i :: 0 <= i < |rows| ==> Occ(Issues(rows), rows[i].issue) <= Occ(Issues(rows), ins.topIssue))
      && (ins.negativeIssue.None? <==> forall i :: 0 <= i < |rows| ==> rows[i].sentiment != Negatif)
      && (ins.negativeIssue.Some? ==>
            && (exists i :: 0 <= i < |rows| && rows[i].sentiment == Negatif
                  && rows[i].issue == ins.negativeIssue.value)
            && forall i :: 0 <= i < |rows| && rows[i].sentiment == Negatif ==>
                 Occ(NegativeIssues(rows), rows[i].issue)
                   <= Occ(NegativeIssues(rows), ins.negativeIssue.value))
  {
    if |rows| == 0 then Failure(EmptyBatch)
    else
      var neg := NegativeIssues(rows);
      var negIssue := if |neg| == 0 then None else Some(Mode(neg));
      TopIssueFacts(rows);
      NegativeIssueFacts(rows);
      SentimentCountsSum(rows);
      SentimentKeys(rows);
      SentimentCountsExact(rows);
      Success(Insight(ValueCounts(Sentiments(rows)), Mode(Issues(rows)), negIssue,
                      Occ(Urgencies(rows), Tinggi)))
  }

  /**
   * On rows the pipeline produced, every urgent row is negative, so the urgent count is at
   * most the number of negative rows.
   */
  lemma {:induction false} UrgentRowsAreNegative(rows: seq<ItemResult>)
    requires forall i :: 0 <= i < |rows| ==> Consistent(rows[i])
    ensures Occ(Urgencies(rows), Tinggi) <= |NegativeIssues(rows)|
    decreases |rows|
  {
    if |rows| > 0 {
      assert Urgencies(rows)[1..] == Urgencies(rows[1..]);
      UrgentRowsAreNegative(rows[1..]);
    }
  }

  /**
   * Lines 245-252: on rows the pipeline produced, both the top issue and the dominant negative
   * issue are keys of the recommendation map, so the `.get` lookups on them never miss.
   */
  lemma InsightIssuesAreRecommended(rows: seq<ItemResult>)
    requires |rows| > 0
    requires forall i :: 0 <= i < |rows| ==> Consistent(rows[i])
    ensures Summarize(rows).value.topIssue in RecommendationMap
    ensures Summarize(rows).value.negativeIssue.Some? ==>
      Summarize(rows).value.negativeIssue.value in RecommendationMap
  {
  }

  /** What the CSV branch produces: the augmented rows and the insight over them. */
  datatype CsvReport = CsvReport(rows: seq<ItemResult>, insight: Insight)

  /**
   * Lines 217-261: analyze every row, then summarize. A run fails when the batch fails or when
   * there is nothing to summarize; a report's insight is the summary of exactly its rows.
   */
  function AnalyzeCsv(a: Analyzer, texts: seq<string>): (r: Result<CsvReport, Error>)
    ensures r.Failure? <==> |texts| == 0 || AnalyzeBatch(a, texts).Failure?
    ensures |texts| == 0 ==> r == Failure(EmptyBatch)
    ensures r.Success? ==>
      && AnalyzeBatch(a, texts) == Success(r.value.rows)
      && |r.value.rows| == |texts|
      && Summarize(r.value.rows) == Success(r.value.insight)
  {
    var rows :- AnalyzeBatch(a, texts);
    var insight :- Summarize(rows);
    Success(CsvReport(rows, insight))
  }

  /**
   * End to end: a CSV run succeeds exactly on a non-empty batch whose every text resolves,
   * each row is the single-text result, the sentiment counts add up to the number of rows,
   * and a positive urgent count implies that a negative issue is reported.
   */
  lemma CsvInsightSound(a: Analyzer, texts: seq<string>)
    ensures AnalyzeCsv(a, texts).Success? <==>
      |texts| > 0 && forall i :: 0 <= i < |texts| ==> AnalyzeText(a, texts[i]).Success?
    ensures AnalyzeCsv(a, texts).Success? ==>
      var rep := AnalyzeCsv(a, texts).value;
      && |rep.rows| == |texts|
      && (forall i :: 0 <= i < |texts| ==> rep.rows[i] == AnalyzeText(a, texts[i]).value)
      && CountOf(rep.insight.sentimentCounts, Negatif) + CountOf(rep.insight.sentimentCounts, Netral)
           + CountOf(rep.insight.sentimentCounts, Positif) == |texts|
      && rep.insight.highUrgency <= CountOf(rep.insight.sentimentCounts, Negatif)
      && (rep.insight.highUrgency > 0 ==> rep.insight.negativeIssue.Some?)
  {
    BatchAgreesWithSingle(a, texts);
    var b := AnalyzeBatch(a, texts);
    if b.Success? && |texts| > 0 {
      var rows := b.value;
      forall i | 0 <= i < |rows|
        ensures Consistent(rows[i])
      {
        assert rows[i] == AnalyzeText(a, texts[i]).value;
      }
      UrgentInsight(rows);
    }
  }

  /** On consistent rows, the urgent count is bounded by the negative count the insight reports. */
  lemma UrgentInsight(rows: seq<ItemResult>)
    requires |rows| > 0
    requires forall i :: 0 <= i < |rows| ==> Consistent(rows[i])
    ensures Summarize(rows).value.highUrgency <= CountOf(Summarize(rows).value.sentimentCounts, Negatif)
    ensures Summarize(rows).value.highUrgency > 0 ==> Summarize(rows).value.negativeIssue.Some?
  {
    UrgentRowsAreNegative(rows);
    OccPositive(Sentiments(rows), Negatif);
    NegativeIssueFacts(rows);
    var ins := Summarize(rows).value;
    assert ins.highUrgency == Occ(Urgencies(rows), Tinggi);
    assert ins.sentimentCounts == ValueCounts(Sentiments(rows));
  }
}

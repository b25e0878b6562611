/**
 * The per-item pipeline (single-text branch) and the column-wise batch pipeline (CSV branch),
 * both over one read-only analyzer handle.
 */
module Pipeline {
  import opened Wrappers
  import opened Errors
  import opened TextNormalizer
  import opened SentimentResolver
  import opened IssueClassifier
  import opened UrgencyClassifier

  /**
   * The loaded resources, shared read-only by every call: the stemmer and stopword list
   * of the foreign text library, and the classifier's class list with `predictProba`
   * standing for `tfidf.transform` followed by `model.predict_proba` on one string.
   */
  datatype Analyzer = Analyzer(
    stem: string -> string,
    stopwords: set<string>,
    classes: seq<int>,
    predictProba: string -> seq<real>)

  /** One output row: the input text plus the columns the code adds. */
  datatype ItemResult = ItemResult(
    text: string,
    cleanText: string,
    confidence: real,
    sentiment: Sentiment,
    issue: string,
    urgency: Urgency)

  /** What the single-text branch shows: the row and the looked-up recommendation. */
  datatype Report = Report(item: ItemResult, recommendation: Option<string>)

  function Clean(a: Analyzer, text: string): string {
    Preprocess(a.stem, a.stopwords, text)
  }

  /** The row invariants every produced result keeps, whichever branch produced it. */
  ghost predicate Consistent(item: ItemResult) {
    && item.urgency == DetectUrgency(item.sentiment, item.confidence)
    && item.issue == DetectIssue(item.cleanText)
    && (item.confidence < ConfThreshold ==> item.sentiment == Netral)
  }

  /** Lines 173-186: clean, score, resolve, then urgency and issue of one text. */
  function AnalyzeText(a: Analyzer, text: string): (r: Result<ItemResult, Error>)
    ensures r.Failure? <==> Resolve(a.classes, a.predictProba(Clean(a, text))).Failure?
    ensures r.Failure? ==> r.error == Resolve(a.classes, a.predictProba(Clean(a, text))).error
    ensures r.Success? ==>
      var proba := a.predictProba(Clean(a, text));
      && r.value.text == text
      && r.value.cleanText == Clean(a, text)
      && |proba| > 0
      && r.value.confidence == MaxOf(proba)
      && Consistent(r.value)
      && (r.value.confidence >= ConfThreshold ==>
            && FirstArgMax(proba) < |a.classes|
            && a.classes[FirstArgMax(proba)] in ClassLabelMap
            && r.value.sentiment == ClassLabelMap[a.classes[FirstArgMax(proba)]])
  {
    var clean := Clean(a, text);
    var proba := a.predictProba(clean);
    var res :- Resolve(a.classes, proba);
    MaxIsAtFirstArgMax(proba);
    FirstMaxUnique(proba, res.argmax, FirstArgMax(proba));
    Success(ItemResult(text, clean, res.confidence, res.sentiment,
                       DetectIssue(clean), DetectUrgency(res.sentiment, res.confidence)))
  }

  /** Lines 173-192: the single-text branch, including the recommendation it displays. */
  function AnalyzeSingle(a: Analyzer, text: string): (r: Result<Report, Error>)
    ensures r.Success? <==> AnalyzeText(a, text).Success?
    ensures r.Success? ==>
      && r.value.item == AnalyzeText(a, text).value
      && r.value.item.issue in RecommendationMap
      && r.value.recommendation == Some(RecommendationMap[r.value.item.issue])
  {
    var item :- AnalyzeText(a, text);
    Success(Report(item, Recommend(item.issue)))
  }

  /** Below the confidence threshold an item is Netral and therefore of medium urgency. */
  lemma LowConfidenceIsSedang(a: Analyzer, text: string)
    requires AnalyzeText(a, text).Success?
    requires AnalyzeText(a, text).value.confidence < ConfThreshold
    ensures AnalyzeText(a, text).value.sentiment == Netral
    ensures AnalyzeText(a, text).value.urgency == Sedang
  {
  }

  /** Order in which the batch branch meets its errors: each is raised column-wide. */
  function Phase(e: Error): nat {
    match e
    case EmptyProbabilities => 0
    case ClassIndexOutOfRange => 1
    case UnknownClassLabel => 2
    case EmptyBatch => 3
  }

  /** `proba` of the CSV branch: one probability row per text, computed from `clean_text`. */
  function ProbaMatrix(a: Analyzer, texts: seq<string>): seq<seq<real>> {
    seq(|texts|, i requires 0 <= i < |texts| => a.predictProba(Clean(a, texts[i])))
  }

  /** `proba.max(axis=1)` raises: some row has no entries. */
  predicate SomeRowEmpty(proba: seq<seq<real>>) {
    exists i :: 0 <= i < |proba| && |proba[i]| == 0
  }

  /** `model.classes_[np.argmax(proba, axis=1)]` raises: some row's argmax is past the class list. */
  predicate SomeArgMaxOutOfRange(classes: seq<int>, proba: seq<seq<real>>)
    requires !SomeRowEmpty(proba)
  {
    exists i :: 0 <= i < |proba| && FirstArgMax(proba[i]) >= |classes|
  }

  /** The sentiment comprehension raises: a confident row's class is not in the label map. */
  predicate SomeLabelUnknown(classes: seq<int>, proba: seq<seq<real>>)
    requires !SomeRowEmpty(proba) && !SomeArgMaxOutOfRange(classes, proba)
  {
    exists i :: 0 <= i < |proba| && MaxOf(proba[i]) >= ConfThreshold
      && classes[FirstArgMax(proba[i])] !in ClassLabelMap
  }

  /** The added columns, computed one column at a time once no column computation raises. */
  function BatchRows(a: Analyzer, texts: seq<string>, proba: seq<seq<real>>): (rows: seq<ItemResult>)
    requires proba == ProbaMatrix(a, texts)
    requires !SomeRowEmpty(proba) && !SomeArgMaxOutOfRange(a.classes, proba)
    requires !SomeLabelUnknown(a.classes, proba)
    ensures |rows| == |texts|
    ensures forall i :: 0 <= i < |texts| ==>
      && rows[i].text == texts[i]
      && rows[i].cleanText == Clean(a, texts[i])
      && rows[i].confidence == MaxOf(proba[i])
      && Consistent(rows[i])
      && (rows[i].confidence >= ConfThreshold ==>
            rows[i].sentiment == ClassLabelMap[a.classes[FirstArgMax(proba[i])]])
  {
    var n := |texts|;
    var clean := seq(n, i requires 0 <= i < n => Clean(a, texts[i]));
    var confidence := seq(n, i requires 0 <= i < n => MaxOf(proba[i]));
    var predicted := seq(n, i requires 0 <= i < n => a.classes[FirstArgMax(proba[i])]);
    var sentiment := seq(n, i requires 0 <= i < n =>
      if confidence[i] < ConfThreshold then Netral else ClassLabelMap[predicted[i]]);
    var issue := seq(n, i requires 0 <= i < n => DetectIssue(clean[i]));
    var urgency := seq(n, i requires 0 <= i < n => DetectUrgency(sentiment[i], confidence[i]));
    seq(n, i requires 0 <= i < n =>
      ItemResult(texts[i], clean[i], confidence[i], sentiment[i], issue[i], urgency[i]))
  }

  /**
   * Lines 217-235: the CSV branch works column by column, so an error is raised by the first
   * column computation that fails on any row.
   */
  function AnalyzeBatch(a: Analyzer, texts: seq<string>): (r: Result<seq<ItemResult>, Error>)
    ensures r.Failure? ==> r.error != EmptyBatch
    ensures r.Success? ==>
      && |r.value| == |texts|
      && forall i :: 0 <= i < |texts| ==>
           && r.value[i].text == texts[i]
           && r.value[i].cleanText == Clean(a, texts[i])
           && |a.predictProba(Clean(a, texts[i]))| > 0
           && r.value[i].confidence == MaxOf(a.predictProba(Clean(a, texts[i])))
           && Consistent(r.value[i])
  {
    var proba := ProbaMatrix(a, texts);
    if SomeRowEmpty(proba) then Failure(EmptyProbabilities)
    else if SomeArgMaxOutOfRange(a.classes, proba) then Failure(ClassIndexOutOfRange)
    else if SomeLabelUnknown(a.classes, proba) then Failure(UnknownClassLabel)
    else Success(BatchRows(a, texts, proba))
  }

  /** The outcome of one text, phase by phase, in the terms the batch branch uses. */
  lemma ItemOutcome(a: Analyzer, text: string)
    ensures var proba := a.predictProba(Clean(a, text));
      if |proba| == 0 then AnalyzeText(a, text) == Failure(EmptyProbabilities)
      else if FirstArgMax(proba) >= |a.classes| then AnalyzeText(a, text) == Failure(ClassIndexOutOfRange)
      else if MaxOf(proba) >= ConfThreshold && a.classes[FirstArgMax(proba)] !in ClassLabelMap then
        AnalyzeText(a, text) == Failure(UnknownClassLabel)
      else
        var confidence := MaxOf(proba);
        var sentiment := if confidence < ConfThreshold then Netral
                         else ClassLabelMap[a.classes[FirstArgMax(proba)]];
        AnalyzeText(a, text) == Success(ItemResult(text, Clean(a, text), confidence, sentiment,
          DetectIssue(Clean(a, text)), DetectUrgency(sentiment, confidence)))
  {
    var proba := a.predictProba(Clean(a, text));
    if |proba| > 0 {
      MaxIsAtFirstArgMax(proba);
      var k := FirstArgMax(proba);
      forall k' | IsFirstMax(proba, k')
        ensures k' == k
      {
        FirstMaxUnique(proba, k, k');
      }
    }
  }

  lemma BatchFailsOnEmptyRow(a: Analyzer, texts: seq<string>)
    requires SomeRowEmpty(ProbaMatrix(a, texts))
    ensures AnalyzeBatch(a, texts) == Failure(EmptyProbabilities)
    ensures exists i :: 0 <= i < |texts| && AnalyzeText(a, texts[i]) == Failure(EmptyProbabilities)
  {
    var proba := ProbaMatrix(a, texts);
    var i :| 0 <= i < |texts| && |proba[i]| == 0;
    ItemOutcome(a, texts[i]);
  }

  lemma BatchFailsOnArgMax(a: Analyzer, texts: seq<string>)
    requires !SomeRowEmpty(ProbaMatrix(a, texts))
    requires SomeArgMaxOutOfRange(a.classes, ProbaMatrix(a, texts))
    ensures AnalyzeBatch(a, texts) == Failure(ClassIndexOutOfRange)
    ensures exists i :: 0 <= i < |texts| && AnalyzeText(a, texts[i]) == Failure(ClassIndexOutOfRange)
    ensures forall j :: 0 <= j < |texts| ==> AnalyzeText(a, texts[j]) != Failure(EmptyProbabilities)
  {
    var proba := ProbaMatrix(a, texts);
    var i :| 0 <= i < |texts| && FirstArgMax(proba[i]) >= |a.classes|;
    ItemOutcome(a, texts[i]);
    forall j | 0 <= j < |texts|
      ensures AnalyzeText(a, texts[j]) != Failure(EmptyProbabilities)
    {
      ItemOutcome(a, texts[j]);
      assert |proba[j]| > 0;
    }
  }

  lemma BatchFailsOnLabel(a: Analyzer, texts: seq<string>)
    requires !SomeRowEmpty(ProbaMatrix(a, texts))
    requires !SomeArgMaxOutOfRange(a.classes, ProbaMatrix(a, texts))
    requires SomeLabelUnknown(a.classes, ProbaMatrix(a, texts))
    ensures AnalyzeBatch(a, texts) == Failure(UnknownClassLabel)
    ensures exists i :: 0 <= i < |texts| && AnalyzeText(a, texts[i]) == Failure(UnknownClassLabel)
    ensures forall j :: 0 <= j < |texts| ==>
      AnalyzeText(a, texts[j]).Success? || AnalyzeText(a, texts[j]) == Failure(UnknownClassLabel)
  {
    var proba := ProbaMatrix(a, texts);
    var i :| 0 <= i < |texts| && MaxOf(proba[i]) >= ConfThreshold
             && a.classes[FirstArgMax(proba[i])] !in ClassLabelMap;
    ItemOutcome(a, texts[i]);
    forall j | 0 <= j < |texts|
      ensures AnalyzeText(a, texts[j]).Success? || AnalyzeText(a, texts[j]) == Failure(UnknownClassLabel)
    {
      ItemOutcome(a, texts[j]);
      assert |proba[j]| > 0 && FirstArgMax(proba[j]) < |a.classes|;
    }
  }

  lemma BatchSucceeds(a: Analyzer, texts: seq<string>)
    requires !SomeRowEmpty(ProbaMatrix(a, texts))
    requires !SomeArgMaxOutOfRange(a.classes, ProbaMatrix(a, texts))
    requires !SomeLabelUnknown(a.classes, ProbaMatrix(a, texts))
    ensures AnalyzeBatch(a, texts).Success?
    ensures |AnalyzeBatch(a, texts).value| == |texts|
    ensures forall j :: 0 <= j < |texts| ==> AnalyzeText(a, texts[j]) == Success(AnalyzeBatch(a, texts).value[j])
  {
    var proba := ProbaMatrix(a, texts);
    var rows := BatchRows(a, texts, proba);
    forall j | 0 <= j < |texts|
      ensures AnalyzeText(a, texts[j]) == Success(rows[j])
    {
      ItemOutcome(a, texts[j]);
      assert |proba[j]| > 0 && FirstArgMax(proba[j]) < |a.classes|;
    }
  }

  /**
   * The batch branch and the single-text branch agree: the batch succeeds exactly when every
   * text succeeds on its own, row `i` is then the single-text result of `texts[i]`, and a
   * failing batch reports the error of some failing text.
   */
  lemma BatchAgreesWithSingle(a: Analyzer, texts: seq<string>)
    ensures AnalyzeBatch(a, texts).Success? <==>
      forall i :: 0 <= i < |texts| ==> AnalyzeText(a, texts[i]).Success?
    ensures AnalyzeBatch(a, texts).Success? ==>
      && |AnalyzeBatch(a, texts).value| == |texts|
      && forall i :: 0 <= i < |texts| ==> AnalyzeBatch(a, texts).value[i] == AnalyzeText(a, texts[i]).value
    ensures AnalyzeBatch(a, texts).Failure? ==>
      exists i :: 0 <= i < |texts| && AnalyzeText(a, texts[i]) == Failure(AnalyzeBatch(a, texts).error)
  {
    var proba := ProbaMatrix(a, texts);
    if SomeRowEmpty(proba) {
      BatchFailsOnEmptyRow(a, texts);
    } else if SomeArgMaxOutOfRange(a.classes, proba) {
      BatchFailsOnArgMax(a, texts);
    } else if SomeLabelUnknown(a.classes, proba) {
      BatchFailsOnLabel(a, texts);
    } else {
      BatchSucceeds(a, texts);
    }
  }

  /**
   * One failing text makes the whole batch fail, and the batch's error comes from the same
   * column computation or an earlier one.
   */
  lemma BatchErrorIsEarliest(a: Analyzer, texts: seq<string>, j: int)
    requires 0 <= j < |texts| && AnalyzeText(a, texts[j]).Failure?
    ensures AnalyzeBatch(a, texts).Failure?
    ensures Phase(AnalyzeBatch(a, texts).error) <= Phase(AnalyzeText(a, texts[j]).error)
  {
    var proba := ProbaMatrix(a, texts);
    ErrorOfText(a, texts[j]);
    if SomeRowEmpty(proba) {
    } else if SomeArgMaxOutOfRange(a.classes, proba) {
      BatchFailsOnArgMax(a, texts);
    } else {
      ItemOutcome(a, texts[j]);
      assert |proba[j]| > 0 && FirstArgMax(proba[j]) < |a.classes|;
      assert MaxOf(proba[j]) >= ConfThreshold && a.classes[FirstArgMax(proba[j])] !in ClassLabelMap;
      BatchFailsOnLabel(a, texts);
    }
  }

  /** A single text only ever fails with one of the three resolution errors. */
  lemma ErrorOfText(a: Analyzer, text: string)
    requires AnalyzeText(a, text).Failure?
    ensures AnalyzeText(a, text).error != EmptyBatch
  {
    ItemOutcome(a, text);
  }
}

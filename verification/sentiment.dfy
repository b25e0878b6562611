/**
 * Confidence-gated sentiment resolution: the confidence is the largest class probability,
 * the predicted class is the class at the first index holding it (`np.argmax`), and the
 * label falls back to Netral when the confidence is under the threshold.
 */
module SentimentResolver {
  import opened Wrappers
  import opened Errors

  datatype Sentiment = Negatif | Netral | Positif

  /** `CLASS_LABEL_MAP`. */
  const ClassLabelMap: map<int, Sentiment> := map[-1 := Negatif, 0 := Netral, 1 := Positif]

  /** `CONF_THRESHOLD`. */
  const ConfThreshold: real := 0.6

  /** `k` is the first index of `p` that holds a largest entry. */
  ghost predicate IsFirstMax(p: seq<real>, k: int) {
    && 0 <= k < |p|
    && (forall j :: 0 <= j < |p| ==> p[j] <= p[k])
    && (forall j :: 0 <= j < k ==> p[j] < p[k])
  }

  /** At most one index is the first maximal one. */
  lemma FirstMaxUnique(p: seq<real>, k1: int, k2: int)
    requires IsFirstMax(p, k1) && IsFirstMax(p, k2)
    ensures k1 == k2
  {
    assert p[k1] == p[k2];
  }

  /** `proba.max()`. */
  function MaxOf(p: seq<real>): (m: real)
    requires |p| > 0
    ensures forall j :: 0 <= j < |p| ==> p[j] <= m
    ensures exists j :: 0 <= j < |p| && p[j] == m
  {
    if |p| == 1 then p[0]
    else
      var m' := MaxOf(p[1..]);
      assert forall j :: 1 <= j < |p| ==> p[j] == p[1..][j - 1];
      if p[0] >= m' then p[0] else m'
  }

  /** `np.argmax(proba)`: the first index holding the largest entry. */
  function FirstArgMax(p: seq<real>): (k: nat)
    requires |p| > 0
    ensures IsFirstMax(p, k)
  {
    if |p| == 1 then 0
    else
      var k' := FirstArgMax(p[..|p| - 1]);
      assert forall j :: 0 <= j < |p| - 1 ==> p[j] == p[..|p| - 1][j];
      if p[|p| - 1] > p[k'] then |p| - 1 else k'
  }

  /** The confidence the code reports is the entry at the argmax index. */
  lemma MaxIsAtFirstArgMax(p: seq<real>)
    requires |p| > 0
    ensures MaxOf(p) == p[FirstArgMax(p)]
  {
    var k := FirstArgMax(p);
    var j :| 0 <= j < |p| && p[j] == MaxOf(p);
    assert p[j] <= p[k];
  }

  /** What the code knows about one item after resolution. */
  datatype Resolution = Resolution(
    confidence: real,
    argmax: nat,
    predicted: int,
    sentiment: Sentiment)

  /**
   * Lines 176-180 of the single-text branch: max, argmax, class lookup, then the gated label.
   * The map lookup sits in the else branch of a conditional expression, so an unknown class
   * raises only when the confidence reaches the threshold.
   */
  function Resolve(classes: seq<int>, proba: seq<real>): (r: Result<Resolution, Error>)
    ensures |proba| == 0 <==> r == Failure(EmptyProbabilities)
    ensures forall k {:trigger IsFirstMax(proba, k)} :: IsFirstMax(proba, k) ==>
      && (r == Failure(ClassIndexOutOfRange) <==> k >= |classes|)
      && (r == Failure(UnknownClassLabel) <==>
            k < |classes| && proba[k] >= ConfThreshold && classes[k] !in ClassLabelMap)
    ensures r.Success? ==>
      var res := r.value;
      && IsFirstMax(proba, res.argmax)
      && res.confidence == proba[res.argmax]
      && res.argmax < |classes|
      && res.predicted == classes[res.argmax]
      && (res.confidence < ConfThreshold ==> res.sentiment == Netral)
      && (res.confidence >= ConfThreshold ==>
            res.predicted in ClassLabelMap && res.sentiment == ClassLabelMap[res.predicted])
    ensures r.Success? && (forall j :: 0 <= j < |proba| ==> 0.0 <= proba[j] <= 1.0) ==>
      0.0 <= r.value.confidence <= 1.0
  {
    if |proba| == 0 then Failure(EmptyProbabilities)
    else
      var confidence := MaxOf(proba);
      var k := FirstArgMax(proba);
      MaxIsAtFirstArgMax(proba);
      assert forall k' :: IsFirstMax(proba, k') ==> k' == k by {
        forall k' | IsFirstMax(proba, k')
          ensures k' == k
        {
          FirstMaxUnique(proba, k, k');
        }
      }
      if k >= |classes| then Failure(ClassIndexOutOfRange)
      else
        var predicted := classes[k];
        if confidence < ConfThreshold then Success(Resolution(confidence, k, predicted, Netral))
        else if predicted !in ClassLabelMap then Failure(UnknownClassLabel)
        else Success(Resolution(confidence, k, predicted, ClassLabelMap[predicted]))
  }

  /**
   * Below the threshold the label is Netral whichever class won, even when the winning
   * class is not a key of the label map.
   */
  lemma LowConfidenceIsNetral(classes: seq<int>, proba: seq<real>)
    requires |proba| > 0 && FirstArgMax(proba) < |classes|
    requires MaxOf(proba) < ConfThreshold
    ensures Resolve(classes, proba).Success?
    ensures Resolve(classes, proba).value.sentiment == Netral
  {
    MaxIsAtFirstArgMax(proba);
  }

  /** A well-formed model (classes drawn from the label map, one probability per class) never fails. */
  lemma WellFormedModelResolves(classes: seq<int>, proba: seq<real>)
    requires |proba| > 0 && |proba| == |classes|
    requires forall j :: 0 <= j < |classes| ==> classes[j] in ClassLabelMap
    ensures Resolve(classes, proba).Success?
  {
    var k := FirstArgMax(proba);
    assert classes[k] in ClassLabelMap;
  }
}

/** `detect_urgency`: a three-way table over the resolved sentiment and the confidence. */
module UrgencyClassifier {
  import opened SentimentResolver

  datatype Urgency = Tinggi | Sedang | Rendah

  /** Confidence above which a negative review is urgent. */
  const UrgentConfidence: real := 0.75

  /** Total: every (sentiment, confidence) pair lands in exactly one row of the table. */
  function DetectUrgency(sentiment: Sentiment, confidence: real): (u: Urgency)
    ensures u == Tinggi <==> sentiment == Negatif && confidence > UrgentConfidence
    ensures u == Sedang <==> sentiment == Netral
    ensures u == Rendah <==>
      sentiment == Positif || (sentiment == Negatif && confidence <= UrgentConfidence)
  {
    if sentiment == Negatif && confidence > UrgentConfidence then Tinggi
    else if sentiment == Netral then Sedang
    else
      assert sentiment.Positif? || sentiment.Negatif?;
      Rendah
  }
}

/**
 * Issue detection (`ISSUE_RULES`, `detect_issue`) and the recommendation table
 * (`RECOMMENDATION_MAP`): an ordered list of (category, keywords) rules where the first
 * category with a keyword occurring anywhere in the cleaned text wins.
 */
module IssueClassifier {
  import opened Wrappers

  /** `k` occurs in `text` starting at position `i`. */
  ghost predicate OccursAt(k: string, text: string, i: int) {
    0 <= i <= |text| - |k| && text[i..i + |k|] == k
  }

  /** Python's `k in text` on strings: `k` occurs in `text` at some position. */
  ghost predicate Occurs(k: string, text: string) {
    exists i :: OccursAt(k, text, i)
  }

  lemma OccursStep(k: string, text: string)
    requires |text| > 0
    ensures Occurs(k, text) <==> k <= text || Occurs(k, text[1..])
  {
    if Occurs(k, text) && !(k <= text) {
      var i :| OccursAt(k, text, i);
      assert i != 0;
      assert OccursAt(k, text[1..], i - 1) by {
        assert text[1..][i - 1..i - 1 + |k|] == text[i..i + |k|];
      }
    }
    if Occurs(k, text[1..]) {
      var i :| OccursAt(k, text[1..], i);
      assert OccursAt(k, text, i + 1) by {
        assert text[1..][i..i + |k|] == text[i + 1..i + 1 + |k|];
      }
    }
    if k <= text {
      assert OccursAt(k, text, 0);
    }
  }

  /** Substring test, scanning start positions left to right. */
  function Contains(text: string, k: string): (b: bool)
    ensures b <==> Occurs(k, text)
    decreases |text|
  {
    if k <= text then
      assert OccursAt(k, text, 0);
      true
    else if |text| == 0 then false
    else
      OccursStep(k, text);
      Contains(text[1..], k)
  }

  /** `any(k in clean_text for k in keywords)`. */
  function AnyKeyword(keywords: seq<string>, text: string): (b: bool)
    ensures b <==> exists i :: 0 <= i < |keywords| && Occurs(keywords[i], text)
  {
    if |keywords| == 0 then false
    else if Contains(text, keywords[0]) then true
    else
      assert forall i :: 1 <= i < |keywords| ==> keywords[i] == keywords[1..][i - 1];
      AnyKeyword(keywords[1..], text)
  }

  /** A rule fires when one of its keywords occurs in the text. */
  ghost predicate Fires(rule: (string, seq<string>), text: string) {
    exists i :: 0 <= i < |rule.1| && Occurs(rule.1[i], text)
  }

  /** Index of the first rule that fires, in declaration order. */
  function FirstFiring(rules: seq<(string, seq<string>)>, text: string): (r: Option<nat>)
    ensures r.Some? ==>
      && r.value < |rules|
      && Fires(rules[r.value], text)
      && forall j :: 0 <= j < r.value ==> !Fires(rules[j], text)
    ensures r.None? <==> forall j :: 0 <= j < |rules| ==> !Fires(rules[j], text)
  {
    if |rules| == 0 then None
    else if AnyKeyword(rules[0].1, text) then Some(0)
    else
      assert forall j :: 1 <= j < |rules| ==> rules[j] == rules[1..][j - 1];
      match FirstFiring(rules[1..], text)
      case None => None
      case Some(i) => Some(i + 1)
  }

  /** `ISSUE_RULES`, in the dict's insertion order. */
  const IssueRules: seq<(string, seq<string>)> := [
    ("Pengiriman", ["kirim", "pengiriman", "lama", "kurir"]),
    ("Kualitas Produk", ["rusak", "cacat", "pecah", "jelek", "kurang"]),
    ("Pelayanan", ["cs", "admin", "respon", "pelayanan"]),
    ("Harga", ["mahal", "murah", "harga"])
  ]

  /** The category returned when no rule fires. */
  const DefaultIssue: string := "Umum"

  /** `RECOMMENDATION_MAP`. */
  const RecommendationMap: map<string, string> := map[
    "Pengiriman" := "Evaluasi kurir dan estimasi pengiriman.",
    "Kualitas Produk" := "Perbaiki quality control sebelum pengiriman.",
    "Pelayanan" := "Tingkatkan respon CS (<24 jam).",
    "Harga" := "Sesuaikan harga dengan kualitas produk.",
    "Umum" := "Pantau ulasan pelanggan secara berkala."
  ]

  /**
   * `detect_issue`: rule `i` is returned exactly when it fires and no earlier rule does,
   * the default exactly when no rule fires, and the result always has a recommendation.
   */
  function DetectIssue(text: string): (issue: string)
    ensures issue in RecommendationMap
    ensures issue == DefaultIssue <==> forall j :: 0 <= j < |IssueRules| ==> !Fires(IssueRules[j], text)
    ensures forall i :: 0 <= i < |IssueRules| ==>
      (issue == IssueRules[i].0 <==>
         Fires(IssueRules[i], text) && forall j :: 0 <= j < i ==> !Fires(IssueRules[j], text))
  {
    match FirstFiring(IssueRules, text)
    case None => DefaultIssue
    case Some(i) => IssueRules[i].0
  }

  /** `RECOMMENDATION_MAP.get(issue)`: the entry when the key is present, `None` otherwise. */
  function Recommend(issue: string): (r: Option<string>)
    ensures r.Some? <==> issue in RecommendationMap
    ensures r.Some? ==> r.value == RecommendationMap[issue]
  {
    if issue in RecommendationMap then Some(RecommendationMap[issue]) else None
  }

  /** The recommendation lookup after `detect_issue` never misses. */
  lemma RecommendationNeverMisses(text: string)
    ensures Recommend(DetectIssue(text)).Some?
    ensures Recommend(DetectIssue(text)).value == RecommendationMap[DetectIssue(text)]
  {
  }
}

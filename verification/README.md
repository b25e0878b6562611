# Review sentiment and issue analysis — a Dafny model

This project models the decision logic of `src/app.py`, a small dashboard
that reads Indonesian product reviews, classifies each one as `Negatif`,
`Netral` or `Positif`, tags it with a business issue, rates its urgency
and proposes an action. It covers the review and batch paths of the
original:

- **Text normalisation** (`TextNormalizer`). `preprocess_text` lowercases
  the text. It deletes every URL-like run that matches `http\S+|www\S+`
  and every character other than `a`–`z` and whitespace. It then splits
  the text on whitespace, drops stopwords and re-joins the tokens with
  single spaces. The stemmer and the stopword list come from an external
  library, so they are parameters of the model.
- **Confidence-gated sentiment** (`SentimentResolver`). The confidence
  is the largest class probability. The predicted label is the class at
  the first maximal index, as `np.argmax` picks it. Below the 0.6
  threshold the sentiment is `Netral`; otherwise the label goes through
  `CLASS_LABEL_MAP`. Each Python exception on this path becomes an error
  value: `max` of an empty vector, an argmax outside `model.classes_`,
  and a label missing from the map.
- **Issue detection and recommendations** (`IssueClassifier`). The four
  `ISSUE_RULES` are tried in declaration order, and the first rule with
  a keyword occurring as a substring wins. Otherwise the issue is
  `Umum`. `RECOMMENDATION_MAP` has an entry for every possible issue.
- **Urgency** (`UrgencyClassifier`). `Tinggi` means negative with
  confidence strictly above 0.75. `Sedang` means neutral. Everything else
  is `Rendah`.
- **Single review and CSV batch** (`Pipeline`). The classifier and the
  preprocessing are held in an `Analyzer` value. The batch path computes
  each column over all rows before moving on to the next column, as the
  pandas code does. So a batch fails with the error of the earliest
  phase that fails on any row.
- **Batch insights** (`Insights`). These are the sentiment value counts,
  the most frequent issue, the most frequent issue among negative
  reviews, and the number of highly urgent reviews.

Beyond the per-operation contracts, the project proves:

- URL stripping removes every URL and is idempotent. It keeps every whitespace character, and in each word it keeps exactly the characters before the first match.
- Lowercasing, the letter filter and stopword removal keep the order of what they keep, with exact counts.
- Splitting the re-joined tokens gives the tokens back.
- The cleaned text is canonical: lowercase letters and single spaces, no
  stopwords.
- The batch path agrees row by row with the single-review path.
- Value counts sum to the number of rows.
- The insight's top issues are really maximal.
- Every highly urgent review is a negative review, so a positive urgency
  count implies there is a dominant negative issue.

## Model

| member | source | states |
|---|---|---|
| TextNormalizer.Lower | src/app.py:113 | the length is kept; `A`–`Z` become the matching `a`–`z`; every other character is unchanged; no ASCII capital remains |
| TextNormalizer.LowerIdempotent | src/app.py:113 | lower-casing an already lower-cased text changes nothing |
| TextNormalizer.StripUrlsRemovesAll | src/app.py:114 | after substitution no position of the text starts a non-space run beginning with `http` or `www` that extends past the prefix |
| TextNormalizer.StripUrlsNoUrl | src/app.py:114 | a text with no URL-like run is left unchanged by the substitution |
| TextNormalizer.StripUrlsIdempotent | src/app.py:114 | applying the URL substitution twice equals applying it once |
| TextNormalizer.StripUrls | src/app.py:114 | deleting URL-like runs never lengthens the text |
| TextNormalizer.StripUrlsAtSpace | src/app.py:114 | every whitespace character survives the substitution and separates it: the text before and after it are substituted independently |
| TextNormalizer.UrlStart | src/app.py:114 | the first position inside a word where the pattern matches, or the word's length when it matches nowhere |
| TextNormalizer.StripUrlsInWord | src/app.py:114 | inside one whitespace-free word, exactly the characters before the first match survive |
| TextNormalizer.KeepLetters | src/app.py:115 | the result holds only `a`–`z` and whitespace, and each of those characters keeps its exact number of occurrences from the input |
| TextNormalizer.KeepLettersAppend | src/app.py:115 | the filter acts character by character, so the order of the kept characters is the input order |
| TextNormalizer.Split | src/app.py:116 | `str.split()` yields only non-empty tokens without whitespace |
| TextNormalizer.SplitAtSpace | src/app.py:116 | a whitespace character always ends a token: the tokens of the text are those before it followed by those after it |
| TextNormalizer.SplitKeepsContent | src/app.py:116 | concatenating the tokens gives back exactly the non-whitespace characters of the text, in order |
| TextNormalizer.SplitLetterWords | src/app.py:115-116 | after letter filtering every token consists of `a`–`z` only |
| TextNormalizer.RemoveStopwords | src/app.py:116 | a token survives exactly when it was in the input and is not a stopword; each surviving token keeps its number of occurrences; stopwords occur zero times |
| TextNormalizer.RemoveStopwordsAppend | src/app.py:116 | the comprehension keeps the tokens in input order: filtering distributes over concatenation |
| TextNormalizer.Join | src/app.py:117 | `" ".join` adds exactly one separator between consecutive tokens: the length is the tokens' total length plus one less than their number |
| TextNormalizer.JoinKeepsContent | src/app.py:117 | joining whitespace-free tokens adds nothing but whitespace: the non-whitespace content is the tokens glued together |
| TextNormalizer.SplitJoin | src/app.py:116-117 | splitting the space-joined tokens gives back the same token list |
| TextNormalizer.JoinCanonical | src/app.py:117 | joining letter-only tokens gives lowercase letters separated by single spaces, with no leading or trailing space |
| TextNormalizer.CleanTextShape | src/app.py:112-117 | the string handed to the stemmer is canonical, re-splits into exactly the kept tokens, and contains no stopword token |
| TextNormalizer.CanonicalIsJoin | src/app.py:117 | a canonical string is the single-space join of its own tokens, so a canonical string is determined by its tokens |
| TextNormalizer.Preprocess | src/app.py:112-117 | `preprocess_text` returns the stemmer applied to a canonical string whose tokens are exactly the kept tokens (a unique string, by the row above) |
| TextNormalizer.CleaningNotIdempotent | src/app.py:113-117 | with an empty stopword set and before stemming, cleaning `ww!wx` gives `wwwx`, and cleaning that again gives the empty string, so the pre-stem cleaning is not idempotent |
| SentimentResolver.FirstMaxUnique | src/app.py:178 | the first maximal index of a probability vector is unique |
| SentimentResolver.MaxOf | src/app.py:177 | `proba.max()` is at least every entry and equal to some entry |
| SentimentResolver.FirstArgMax | src/app.py:178 | `np.argmax` returns an index holding the maximum, with every earlier entry strictly smaller |
| SentimentResolver.MaxIsAtFirstArgMax | src/app.py:177-178 | the confidence is the probability of the predicted class |
| SentimentResolver.Resolve | src/app.py:176-180 | an empty vector fails as `max` does; an argmax outside the classes fails as indexing does; an unknown label fails only when the confidence reaches the threshold. On success the label sits at the first maximal index and the sentiment is `Netral` below 0.6, otherwise the mapped label. The confidence lies in [0, 1] when the probabilities do |
| SentimentResolver.LowConfidenceIsNetral | src/app.py:180 | below the 0.6 threshold the sentiment is `Netral`, whatever the predicted label |
| SentimentResolver.WellFormedModelResolves | src/app.py:122-123 | a classifier whose classes all lie in {-1, 0, 1} and match the vector length never makes resolution fail |
| IssueClassifier.OccursStep | src/app.py:145 | a keyword occurs in a text iff it is a prefix or occurs in the text without its first character |
| IssueClassifier.Contains | src/app.py:145 | `k in clean_text` holds exactly when `k` occurs as a contiguous substring |
| IssueClassifier.AnyKeyword | src/app.py:145 | `any(...)` holds exactly when one of the rule's keywords occurs in the text |
| IssueClassifier.FirstFiring | src/app.py:144-146 | the result is the index of a firing rule with no earlier rule firing, and it is absent exactly when no rule fires |
| IssueClassifier.DetectIssue | src/app.py:143-147 | the issue is a key of the recommendation map; it is `Umum` exactly when no rule fires; it is rule i's name exactly when rule i fires and no earlier rule does |
| IssueClassifier.Recommend | src/app.py:192 | `RECOMMENDATION_MAP.get` returns the entry exactly when the key is present, and `None` otherwise |
| IssueClassifier.RecommendationNeverMisses | src/app.py:132-138 | `RECOMMENDATION_MAP.get` on any detected issue returns that issue's recommendation, never `None` |
| UrgencyClassifier.DetectUrgency | src/app.py:149-155 | `Tinggi` exactly when negative with confidence above 0.75; `Sedang` exactly when neutral; `Rendah` exactly in every other case |
| Pipeline.AnalyzeText | src/app.py:173-186 | single-text analysis fails exactly when resolution fails, with the same error. On success it keeps the text and its cleaned form, and its confidence is the vector's maximum. Urgency and issue agree with the helpers. The sentiment is `Netral` below 0.6 and otherwise the mapped label of the class at the first maximal index |
| Pipeline.AnalyzeSingle | src/app.py:173-192 | the single-text branch succeeds exactly when the analysis does; its item is that analysis, and its recommendation is the map's entry for the item's issue, never `None` |
| Pipeline.LowConfidenceIsSedang | src/app.py:180-185 | a single review below the confidence threshold is `Netral` with urgency `Sedang` |
| Pipeline.ItemOutcome | src/app.py:176-180 | each failure phase of one text is characterised by its own probability vector |
| Pipeline.BatchRows | src/app.py:217-235 | once no column computation raises, there is one row per text; row i holds text i and its cleaned form, its confidence is the row maximum, its sentiment is gated and mapped as for one text, and its urgency and issue agree with the helpers |
| Pipeline.AnalyzeBatch | src/app.py:217-235 | a batch never fails with the empty-batch error; on success it has one row per text, in order, each holding that text's cleaned form and confidence and consistent urgency, issue and gate |
| Pipeline.BatchFailsOnEmptyRow | src/app.py:222 | a batch with an empty probability row fails at the row maximum, and some single text fails the same way |
| Pipeline.BatchFailsOnArgMax | src/app.py:223 | a batch whose rows are non-empty but with an argmax outside the classes fails at indexing, and no single text fails earlier |
| Pipeline.BatchFailsOnLabel | src/app.py:225-229 | a batch that passes indexing but has an unmapped confident label fails with the label error, and every single text either succeeds or fails on its label |
| Pipeline.BatchSucceeds | src/app.py:217-235 | when no phase fails, the batch has one row per text, equal to that text's single analysis |
| Pipeline.BatchAgreesWithSingle | src/app.py:217-235 | the batch succeeds iff every text succeeds alone; its rows are then the single results in order; a failing batch reports an error that some single text also fails with |
| Pipeline.BatchErrorIsEarliest | src/app.py:217-229 | one failing text makes the whole batch fail, and the batch's error comes from the same column computation as that text's error or an earlier one |
| Pipeline.ErrorOfText | src/app.py:176-180 | analysing one text never produces the empty-batch error |
| Insights.OccAppend | src/app.py:241 | appending one value raises its count by one and leaves other counts unchanged |
| Insights.OccPositive | src/app.py:241 | a value has a positive count exactly when it occurs |
| Insights.ValueCounts | src/app.py:241 | `value_counts()` has a key for exactly the values present, each mapped to its number of occurrences |
| Insights.Mode | src/app.py:245 | `value_counts().idxmax()` returns a value of maximal count, found at a position before which every value is strictly less frequent, so ties go to the value met first |
| Insights.NegativeIssues | src/app.py:248 | the negative sub-frame has one issue per negative row; an issue appears in it exactly when some negative row has it, and as many times as there are negative rows with that issue |
| Insights.SentimentOccSum | src/app.py:241 | the three sentiment counts add up to the number of rows |
| Insights.SentimentCountsSum | src/app.py:241 | the sentiment value counts add up to the number of rows |
| Insights.SentimentKeys | src/app.py:241 | a sentiment is a value-count key exactly when some row has it |
| Insights.TopIssueFacts | src/app.py:245 | the top issue is some row's issue and no issue is more frequent |
| Insights.NegativeIssueFacts | src/app.py:248-250 | there are no negative issues exactly when no row is negative; otherwise the dominant negative issue belongs to a negative row and is maximal among them |
| Insights.SentimentCountsExact | src/app.py:241 | the count read off `value_counts()` for a sentiment is its number of rows, zero when it is absent |
| Insights.Summarize | src/app.py:240-261 | an empty frame fails as `idxmax` does. Otherwise the sentiment keys are those present, and each sentiment's count is its number of rows; the counts sum to the row count. The urgent count is the number of `Tinggi` rows. The top issue occurs and is maximal. The negative issue is absent exactly when no review is negative, and otherwise is a maximal issue of a negative review |
| Insights.UrgentRowsAreNegative | src/app.py:256 | among consistent rows, the `Tinggi` rows are no more than the negative rows |
| Insights.UrgentInsight | src/app.py:256-261 | the urgency count never exceeds the negative count, and an urgency warning always comes with a dominant negative issue |
| Insights.InsightIssuesAreRecommended | src/app.py:245-252 | on pipeline rows, the top issue and the dominant negative issue are both keys of the recommendation map, so the lookup on the negative issue never returns `None` |
| Insights.AnalyzeCsv | src/app.py:217-261 | a CSV run fails exactly when the batch fails or is empty, and an empty one fails with the empty-batch error; a report has one row per text, its rows are the batch's rows, and its insight is the summary of exactly those rows |
| Insights.CsvInsightSound | src/app.py:217-261 | the CSV analysis succeeds iff the batch is non-empty and every text analyses alone. Its rows are then the single results, the sentiment counts sum to the number of texts, and the urgency facts above hold |

## Left out

- The Streamlit page is not modelled: layout, CSS, widgets, mode radio, charts, messages and the download button. Only the values the page displays are modelled.
- Loading the pickled vectoriser and classifier is not modelled. The classifier's `predict_proba` on the TF-IDF features of the cleaned text, and its `classes_` vector, are fields of `Analyzer`. Their numeric behaviour is not modelled.
- Pipeline.ProbaMatrix: the batch call `model.predict_proba(X)` on all cleaned texts (line 220) is assumed to give, row by row, what the single-text call gives for each text. The model has one function from a cleaned string to its probability vector. Row-by-row agreement holds for a model whose prediction of one row does not depend on the other rows, but is not checked.
- Pipeline.ProbaMatrix: the rows of the modelled batch matrix may differ in length, which a numpy matrix cannot. With a real classifier every row has one entry per class, so the model admits more inputs than the code can meet. It does not exclude any behaviour the code has.
- The Sastrawi stemmer and stopword list are not modelled: the stemmer is an arbitrary function parameter, and the stopwords are an arbitrary set.
- TextNormalizer.Lower: lowercases ASCII `A`–`Z` only. Python's `str.lower` is full Unicode lowercasing, so non-ASCII characters that lower into `a`–`z` are deleted in the model instead of becoming letters. Examples are the Kelvin sign, which lowers to `k`, and dotted capital I, which lowers to `i` plus a combining dot. Non-ASCII whitespace (no-break space, the Unicode space separators, ideographic space) is kept by both, and the letter filter deletes every other non-ASCII character in both.
- TextNormalizer.StripUrls is a direct definition of what `re.sub(r"http\S+|www\S+", "", ...)` does (leftmost match, greedy to the end of the non-whitespace run, at least one character after the prefix). It is not a model of the regular-expression engine. Whitespace is Python's `str.isspace` set for `\s` and `split()`.
- `str(text)` and `astype(str)` coercions are not modelled; every input is already a string. NaN cells are not modelled either (pandas turns them into the text `nan`).
- CSV input handling is not modelled: a missing upload, `pd.read_csv` parse errors and the missing `text` column message (lines 207-215).
- Probabilities are modelled as exact reals. Floating-point rounding and NaN propagation through `max` and `argmax` are not modelled, and neither is the fact that each row sums to one.
- Pipeline.AnalyzeBatch: reports which phase failed but not the row or the exception message.
- Insights.Mode: the order in which pandas breaks ties between equally frequent values is not guaranteed. The model fixes it as the first value encountered, so on a tie pandas may report a different value of the same count.
- An empty CSV frame fails in the code, either in the classifier's input validation or in `idxmax` on an empty series. The model reports this as the `EmptyBatch` error. It does not produce a summary of zero counts, because the code never reaches one.
- The pre-stem cleaning is not idempotent (`TextNormalizer.CleaningNotIdempotent`, shown with an empty stopword set and before stemming). Deleting punctuation can glue letters into a new `www…` run, which a second pass would delete. The model keeps the code's single pass and proves the counterexample rather than the idempotence a reader might expect. Nothing is stated about re-running the full `preprocess_text`, stemming included.

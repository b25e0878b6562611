/**
 * Text cleaning done before stemming (`preprocess_text`): lower-case, strip URL-like runs,
 * keep only `a`-`z` and whitespace, split into tokens, drop stopwords, rejoin with single
 * spaces, and hand the result to the stemmer. The stemmer and the stopword list come from a
 * foreign library, so they are parameters here.
 */
module TextNormalizer {

  /**
   * Python's `str.isspace()`; the same set is what `\s` in a `str` regex and `str.split()` use:
   * tab to carriage return, the four information separators and space, next line, no-break
   * space, and the Unicode space separators.
   */
  predicate IsSpace(c: char) {
    var x := c as int;
    if x <= 0x20 then 0x09 <= x <= 0x0D || 0x1C <= x
    else if x < 0x85 then false
    else
      || x == 0x85 || x == 0xA0 || x == 0x1680 || 0x2000 <= x <= 0x200A
      || x == 0x2028 || x == 0x2029 || x == 0x202F || x == 0x205F || x == 0x3000
  }

  /** The characters the class `[a-z]` accepts. */
  predicate IsLetter(c: char) {
    'a' <= c <= 'z'
  }

  /** A token as `str.split()` produces it: non-empty and free of whitespace. */
  predicate IsWord(w: string) {
    |w| > 0 && forall i :: 0 <= i < |w| ==> !IsSpace(w[i])
  }

  /** A token that survives the cleaning: non-empty and made of `a`-`z` only. */
  predicate IsLetterWord(w: string) {
    |w| > 0 && forall i :: 0 <= i < |w| ==> IsLetter(w[i])
  }

  // ---------------------------------------------------------------------------------------
  // Lower-casing (ASCII only; see README)
  // ---------------------------------------------------------------------------------------

  predicate IsUpper(c: char) {
    'A' <= c <= 'Z'
  }

  function LowerChar(c: char): char {
    if IsUpper(c) then (c as int + 32) as char else c
  }

  /** `str.lower()` restricted to ASCII: `A`-`Z` become `a`-`z`, everything else is kept. */
  function Lower(s: string): (r: string)
    ensures |r| == |s|
    ensures forall i :: 0 <= i < |s| && IsUpper(s[i]) ==> IsLetter(r[i]) && r[i] as int == s[i] as int + 32
    ensures forall i :: 0 <= i < |s| && !IsUpper(s[i]) ==> r[i] == s[i]
    ensures forall i :: 0 <= i < |r| ==> !IsUpper(r[i])
  {
    seq(|s|, i requires 0 <= i < |s| => LowerChar(s[i]))
  }

  /** Lower-casing twice is lower-casing once. */
  lemma LowerIdempotent(s: string)
    ensures Lower(Lower(s)) == Lower(s)
  {
    var r := Lower(s);
    assert forall i :: 0 <= i < |r| ==> Lower(r)[i] == r[i];
  }

  // ---------------------------------------------------------------------------------------
  // URL stripping: re.sub(r"http\S+|www\S+", "", text)
  // ---------------------------------------------------------------------------------------

  /** Length of the leading run of non-whitespace characters of `s`. */
  function RunLen(s: string): (n: nat)
    ensures n <= |s|
    ensures forall i :: 0 <= i < n ==> !IsSpace(s[i])
    ensures n < |s| ==> IsSpace(s[n])
  {
    if |s| == 0 || IsSpace(s[0]) then 0 else 1 + RunLen(s[1..])
  }

  /** The leading run of non-whitespace characters of `s`. */
  function LeadRun(s: string): string {
    s[..RunLen(s)]
  }

  /**
   * Whether the pattern `http\S+|www\S+` matches at the start of `s`. Both literal prefixes
   * are themselves non-space, so a match is a leading non-space run that starts with the
   * prefix and is strictly longer than it; the greedy `\S+` makes the match the whole run.
   */
  predicate UrlAt(s: string) {
    var n := RunLen(s);
    (n > 4 && s[..4] == "http") || (n > 3 && s[..3] == "www")
  }

  /** Left-to-right, non-overlapping removal of every match, as `re.sub` does it. */
  function StripUrls(s: string): (r: string)
    ensures |r| <= |s|
    decreases |s|
  {
    if |s| == 0 then ""
    else if UrlAt(s) then StripUrls(s[RunLen(s)..])
    else [s[0]] + StripUrls(s[1..])
  }

  /** Whether a match of the URL pattern starts anywhere in `s`. */
  predicate HasUrl(s: string) {
    exists i :: 0 <= i <= |s| && UrlAt(s[i..])
  }

  lemma LeadRunCons(c: char, s: string)
    ensures IsSpace(c) ==> RunLen([c] + s) == 0
    ensures !IsSpace(c) ==> LeadRun([c] + s) == [c] + LeadRun(s)
  {
    assert ([c] + s)[1..] == s;
  }

  /** UrlAt only looks at the leading run, so it carries over to any longer run. */
  lemma UrlAtExtends(a: string, b: string)
    requires LeadRun(a) <= LeadRun(b)
    requires UrlAt(a)
    ensures UrlAt(b)
  {
    assert RunLen(a) <= RunLen(b);
    if RunLen(a) > 4 && a[..4] == "http" {
      assert a[..4] == LeadRun(a)[..4] == LeadRun(b)[..4] == b[..4];
    } else {
      assert a[..3] == LeadRun(a)[..3] == LeadRun(b)[..3] == b[..3];
    }
  }

  /** After stripping, the leading run is a prefix of the original leading run. */
  lemma {:induction false} StripUrlsLeadRun(s: string)
    ensures LeadRun(StripUrls(s)) <= LeadRun(s)
    decreases |s|
  {
    if |s| == 0 {
    } else if UrlAt(s) {
      var t := s[RunLen(s)..];
      if |t| > 0 {
        assert IsSpace(t[0]);
        assert !UrlAt(t) by { assert RunLen(t) == 0; }
        assert StripUrls(t) == [t[0]] + StripUrls(t[1..]);
        LeadRunCons(t[0], StripUrls(t[1..]));
      }
    } else {
      LeadRunCons(s[0], StripUrls(s[1..]));
      LeadRunCons(s[0], s[1..]);
      assert s == [s[0]] + s[1..];
      if !IsSpace(s[0]) {
        StripUrlsLeadRun(s[1..]);
      }
    }
  }

  /** No match of the URL pattern survives the stripping, at any position. */
  lemma {:induction false} StripUrlsRemovesAll(s: string)
    ensures !HasUrl(StripUrls(s))
    decreases |s|
  {
    var r := StripUrls(s);
    if |s| == 0 {
      assert r == "";
      assert forall i :: 0 <= i <= |r| ==> r[i..] == "";
    } else if UrlAt(s) {
      StripUrlsRemovesAll(s[RunLen(s)..]);
    } else {
      var r' := StripUrls(s[1..]);
      StripUrlsRemovesAll(s[1..]);
      assert r == [s[0]] + r';
      forall i | 0 <= i <= |r|
        ensures !UrlAt(r[i..])
      {
        if i == 0 {
          if UrlAt(r) {
            LeadRunCons(s[0], r');
            LeadRunCons(s[0], s[1..]);
            assert s == [s[0]] + s[1..];
            StripUrlsLeadRun(s[1..]);
            UrlAtExtends(r, s);
          }
        } else {
          assert r[i..] == r'[i - 1..];
        }
      }
    }
  }

  /** Stripping changes nothing in a string that holds no match. */
  lemma {:induction false} StripUrlsNoUrl(s: string)
    requires !HasUrl(s)
    ensures StripUrls(s) == s
    decreases |s|
  {
    if |s| > 0 {
      assert s[0..] == s;
      assert !HasUrl(s[1..]) by {
        forall i | 0 <= i <= |s[1..]|
          ensures !UrlAt(s[1..][i..])
        {
          assert s[1..][i..] == s[i + 1..];
        }
      }
      StripUrlsNoUrl(s[1..]);
    }
  }

  /** Applying the URL substitution twice is the same as applying it once. */
  lemma StripUrlsIdempotent(s: string)
    ensures StripUrls(StripUrls(s)) == StripUrls(s)
  {
    StripUrlsRemovesAll(s);
    StripUrlsNoUrl(StripUrls(s));
  }
  /** A run that ends in whitespace has the same leading run, and the same URL test, as the run alone. */
  lemma {:induction false} RunLenBeforeSpace(a: string, t: string)
    requires |t| > 0 && IsSpace(t[0])
    ensures RunLen(a + t) == RunLen(a)
    ensures UrlAt(a + t) <==> UrlAt(a)
    decreases |a|
  {
    if |a| > 0 && !IsSpace(a[0]) {
      assert (a + t)[1..] == a[1..] + t;
      RunLenBeforeSpace(a[1..], t);
    }
    var n := RunLen(a);
    if n >= 4 {
      assert (a + t)[..4] == a[..4];
      assert (a + t)[..3] == a[..3];
    }
  }

  /** URL stripping works word by word: a whitespace character is kept and separates the two sides. */
  lemma {:induction false} StripUrlsAtSpace(a: string, c: char, b: string)
    requires IsSpace(c)
    ensures StripUrls(a + [c] + b) == StripUrls(a) + [c] + StripUrls(b)
    decreases |a|
  {
    var s := a + [c] + b;
    if |a| == 0 {
      assert s == [c] + b;
      assert s[1..] == b;
    } else {
      assert s == a + ([c] + b);
      RunLenBeforeSpace(a, [c] + b);
      if UrlAt(a) {
        var n := RunLen(a);
        assert s[n..] == a[n..] + [c] + b;
        StripUrlsAtSpace(a[n..], c, b);
      } else {
        assert s[1..] == a[1..] + [c] + b;
        StripUrlsAtSpace(a[1..], c, b);
      }
    }
  }

  /** Where the first match starts inside `w`; `|w|` when there is none. */
  function UrlStart(w: string): (p: nat)
    ensures p <= |w|
    ensures p < |w| ==> UrlAt(w[p..])
    ensures forall q :: 0 <= q < p ==> !UrlAt(w[q..])
    decreases |w|
  {
    if |w| == 0 || UrlAt(w) then 0
    else
      assert forall q :: 1 <= q <= |w| ==> w[1..][q - 1..] == w[q..];
      1 + UrlStart(w[1..])
  }

  /**
   * Inside one whitespace-free word, everything before the first match survives and the match
   * swallows the rest of the word.
   */
  lemma {:induction false} StripUrlsInWord(w: string)
    requires forall i :: 0 <= i < |w| ==> !IsSpace(w[i])
    ensures StripUrls(w) == w[..UrlStart(w)]
    decreases |w|
  {
    if |w| > 0 {
      if UrlAt(w) {
        assert RunLen(w) == |w|;
        assert w[|w|..] == "";
      } else {
        StripUrlsInWord(w[1..]);
        assert w[..1 + UrlStart(w[1..])] == [w[0]] + w[1..][..UrlStart(w[1..])];
      }
    }
  }


  // ---------------------------------------------------------------------------------------
  // Character filter: re.sub(r"[^a-z\s]", "", text)
  // ---------------------------------------------------------------------------------------

  function KeepLetters(s: string): (r: string)
    ensures forall i :: 0 <= i < |r| ==> IsLetter(r[i]) || IsSpace(r[i])
    ensures forall c {:trigger multiset(r)[c]} ::
      multiset(r)[c] == if IsLetter(c) || IsSpace(c) then multiset(s)[c] else 0
  {
    if |s| == 0 then ""
    else
      assert s == [s[0]] + s[1..];
      (if IsLetter(s[0]) || IsSpace(s[0]) then [s[0]] else "") + KeepLetters(s[1..])
  }
  /** The filter works character by character: it distributes over concatenation. */
  lemma {:induction false} KeepLettersAppend(a: string, b: string)
    ensures KeepLetters(a + b) == KeepLetters(a) + KeepLetters(b)
    decreases |a|
  {
    if |a| == 0 {
      assert a + b == b;
    } else {
      assert (a + b)[0] == a[0] && (a + b)[1..] == a[1..] + b;
      KeepLettersAppend(a[1..], b);
    }
  }


  // ---------------------------------------------------------------------------------------
  // Tokenising and joining: text.split() and " ".join(tokens)
  // ---------------------------------------------------------------------------------------

  /** `str.split()` with no separator: the maximal runs of non-whitespace, in order. */
  function Split(s: string): (ts: seq<string>)
    ensures forall i :: 0 <= i < |ts| ==> IsWord(ts[i])
    decreases |s|
  {
    if |s| == 0 then []
    else if IsSpace(s[0]) then Split(s[1..])
    else [s[..RunLen(s)]] + Split(s[RunLen(s)..])
  }
  /** A whitespace character always ends a token: the tokens of both sides, in order. */
  lemma {:induction false} SplitAtSpace(a: string, c: char, b: string)
    requires IsSpace(c)
    ensures Split(a + [c] + b) == Split(a) + Split(b)
    decreases |a|
  {
    var s := a + [c] + b;
    if |a| == 0 {
      assert s == [c] + b;
      assert s[1..] == b;
    } else if IsSpace(a[0]) {
      assert s[1..] == a[1..] + [c] + b;
      SplitAtSpace(a[1..], c, b);
    } else {
      assert s == a + ([c] + b);
      RunLenBeforeSpace(a, [c] + b);
      var n := RunLen(a);
      assert s[..n] == a[..n];
      assert s[n..] == a[n..] + [c] + b;
      SplitAtSpace(a[n..], c, b);
    }
  }


  /** `" ".join(ts)`. */
  function Join(ts: seq<string>): (r: string)
    ensures |ts| > 0 ==> |r| == |Concat(ts)| + |ts| - 1
  {
    if |ts| == 0 then ""
    else if |ts| == 1 then ts[0]
    else ts[0] + " " + Join(ts[1..])
  }

  function Concat(ts: seq<string>): string {
    if |ts| == 0 then "" else ts[0] + Concat(ts[1..])
  }

  /** The non-whitespace characters of `s`, in order. */
  function NonSpace(s: string): string {
    if |s| == 0 then "" else (if IsSpace(s[0]) then "" else [s[0]]) + NonSpace(s[1..])
  }

  lemma {:induction false} NonSpaceAppend(a: string, b: string)
    ensures NonSpace(a + b) == NonSpace(a) + NonSpace(b)
    decreases |a|
  {
    if |a| == 0 {
      assert a + b == b;
    } else {
      assert (a + b)[1..] == a[1..] + b;
      NonSpaceAppend(a[1..], b);
    }
  }


  lemma {:induction false} NonSpaceOfWord(w: string)
    requires forall i :: 0 <= i < |w| ==> !IsSpace(w[i])
    ensures NonSpace(w) == w
    decreases |w|
  {
    if |w| > 0 {
      NonSpaceOfWord(w[1..]);
      assert w == [w[0]] + w[1..];
    }
  }

  /** Splitting loses exactly the whitespace: the tokens, glued together, are the other characters. */
  lemma {:induction false} SplitKeepsContent(s: string)
    ensures Concat(Split(s)) == NonSpace(s)
    decreases |s|
  {
    if |s| == 0 {
    } else if IsSpace(s[0]) {
      SplitKeepsContent(s[1..]);
    } else {
      var w, rest := s[..RunLen(s)], s[RunLen(s)..];
      assert s == w + rest;
      NonSpaceAppend(w, rest);
      NonSpaceOfWord(w);
      SplitKeepsContent(rest);
      var ts := Split(s);
      assert ts == [w] + Split(rest);
      assert ts[0] == w && ts[1..] == Split(rest);
    }
  }
  /** Joining adds only separators: the non-whitespace content is the tokens glued together. */
  lemma {:induction false} JoinKeepsContent(ts: seq<string>)
    requires forall i :: 0 <= i < |ts| ==> IsWord(ts[i])
    ensures NonSpace(Join(ts)) == Concat(ts)
    decreases |ts|
  {
    if |ts| == 1 {
      NonSpaceOfWord(ts[0]);
      assert Concat(ts) == ts[0] + Concat([]);
    } else if |ts| > 1 {
      NonSpaceAppend(ts[0] + " ", Join(ts[1..]));
      NonSpaceAppend(ts[0], " ");
      NonSpaceOfWord(ts[0]);
      assert NonSpace(" ") == "";
      JoinKeepsContent(ts[1..]);
    }
  }


  predicate LettersOrSpaces(s: string) {
    forall i :: 0 <= i < |s| ==> IsLetter(s[i]) || IsSpace(s[i])
  }

  lemma LettersOrSpacesSuffix(s: string, k: nat)
    requires LettersOrSpaces(s) && k <= |s|
    ensures LettersOrSpaces(s[k..])
  {
    assert forall i :: 0 <= i < |s[k..]| ==> s[k..][i] == s[k + i];
  }

  /** The first token of a string of letters and whitespace is a word of letters. */
  lemma LeadWordLetters(t: string)
    requires LettersOrSpaces(t) && |t| > 0 && !IsSpace(t[0])
    ensures IsLetterWord(t[..RunLen(t)])
    ensures LettersOrSpaces(t[RunLen(t)..])
  {
    var w := t[..RunLen(t)];
    forall i | 0 <= i < |w|
      ensures IsLetter(w[i])
    {
      assert w[i] == t[i];
    }
    LettersOrSpacesSuffix(t, RunLen(t));
  }

  /** Splitting a string of letters and whitespace yields words of letters only. */
  lemma {:induction false} SplitLetterWords(s: string)
    requires LettersOrSpaces(s)
    ensures forall j :: 0 <= j < |Split(s)| ==> IsLetterWord(Split(s)[j])
    decreases |s|
  {
    if |s| == 0 {
    } else if IsSpace(s[0]) {
      LettersOrSpacesSuffix(s, 1);
      SplitLetterWords(s[1..]);
    } else {
      var w, rest := s[..RunLen(s)], s[RunLen(s)..];
      LeadWordLetters(s);
      SplitLetterWords(rest);
      var ts, ts' := Split(s), Split(rest);
      assert ts == [w] + ts';
      forall j | 0 <= j < |ts|
        ensures IsLetterWord(ts[j])
      {
        if j > 0 {
          assert ts[j] == ts'[j - 1];
        }
      }
    }
  }

  lemma SplitLeadingSpace(c: char, s: string)
    requires IsSpace(c)
    ensures Split([c] + s) == Split(s)
  {
    assert ([c] + s)[1..] == s;
  }

  /** Splitting undoes joining, for tokens of the kind `str.split()` produces. */
  lemma {:induction false} SplitJoin(ts: seq<string>)
    requires forall i :: 0 <= i < |ts| ==> IsWord(ts[i])
    ensures Split(Join(ts)) == ts
    decreases |ts|
  {
    if |ts| > 0 {
      var w := ts[0];
      var rest := if |ts| == 1 then "" else " " + Join(ts[1..]);
      var s := w + rest;
      assert Join(ts) == s;
      RunLenOfWord(w, rest);
      assert s[0] == w[0] && !IsSpace(s[0]);
      assert s[..|w|] == w && s[|w|..] == rest;
      assert Split(s) == [w] + Split(rest);
      if |ts| > 1 {
        assert rest == [' '] + Join(ts[1..]);
        SplitLeadingSpace(' ', Join(ts[1..]));
        SplitJoin(ts[1..]);
      }
      assert ts == [w] + ts[1..];
    }
  }

  lemma {:induction false} RunLenOfWord(w: string, rest: string)
    requires IsWord(w)
    requires |rest| == 0 || IsSpace(rest[0])
    ensures RunLen(w + rest) == |w|
    decreases |w|
  {
    assert (w + rest)[1..] == w[1..] + rest;
    if |w| > 1 {
      RunLenOfWord(w[1..], rest);
    } else {
      assert w[1..] + rest == rest;
    }
  }

  // ---------------------------------------------------------------------------------------
  // Stopwords and the whole cleaning
  // ---------------------------------------------------------------------------------------

  /** `[t for t in tokens if t not in stopwords]`. */
  function RemoveStopwords(ts: seq<string>, stopwords: set<string>): (r: seq<string>)
    ensures forall t :: t in r <==> t in ts && t !in stopwords
    ensures forall t {:trigger multiset(r)[t]} ::
      multiset(r)[t] == if t in stopwords then 0 else multiset(ts)[t]
    ensures |r| <= |ts|
  {
    if |ts| == 0 then []
    else
      assert ts == [ts[0]] + ts[1..];
      (if ts[0] in stopwords then [] else [ts[0]]) + RemoveStopwords(ts[1..], stopwords)
  }

  /** The filter keeps order: it distributes over concatenation. */
  lemma {:induction false} RemoveStopwordsAppend(a: seq<string>, b: seq<string>, stopwords: set<string>)
    ensures RemoveStopwords(a + b, stopwords) == RemoveStopwords(a, stopwords) + RemoveStopwords(b, stopwords)
    decreases |a|
  {
    if |a| == 0 {
      assert a + b == b;
    } else {
      assert (a + b)[0] == a[0] && (a + b)[1..] == a[1..] + b;
      RemoveStopwordsAppend(a[1..], b, stopwords);
    }
  }

  /** The tokens `preprocess_text` keeps, before they are rejoined. */
  function Tokens(stopwords: set<string>, text: string): seq<string> {
    RemoveStopwords(Split(KeepLetters(StripUrls(Lower(text)))), stopwords)
  }

  /** The string `preprocess_text` hands to the stemmer. */
  function CleanForStem(stopwords: set<string>, text: string): string {
    Join(Tokens(stopwords, text))
  }

  /** `preprocess_text`: the cleaned string, stemmed by the foreign stemmer `stem`. */
  function Preprocess(stem: string -> string, stopwords: set<string>, text: string): (r: string)
    ensures exists s :: IsCanonical(s) && Split(s) == Tokens(stopwords, text) && r == stem(s)
  {
    var s := CleanForStem(stopwords, text);
    CleanTextShape(stopwords, text);
    stem(s)
  }

  /** A string made of `a`-`z` words separated by single spaces, without outer spaces. */
  predicate IsCanonical(s: string) {
    && (forall i :: 0 <= i < |s| ==> IsLetter(s[i]) || s[i] == ' ')
    && (|s| > 0 ==> s[0] != ' ' && s[|s| - 1] != ' ')
    && (forall i :: 0 < i < |s| && s[i] == ' ' ==> s[i - 1] != ' ')
  }

  lemma {:induction false} JoinCanonical(ts: seq<string>)
    requires forall i :: 0 <= i < |ts| ==> IsLetterWord(ts[i])
    ensures IsCanonical(Join(ts))
    decreases |ts|
  {
    if |ts| > 1 {
      JoinCanonical(ts[1..]);
      var w, j := ts[0], Join(ts[1..]);
      var s := w + " " + j;
      assert Join(ts) == s;
      assert |j| > 0 by {
        assert |ts[1..]| > 0;
        JoinNonEmpty(ts[1..]);
      }
      forall i | 0 < i < |s| && s[i] == ' '
        ensures s[i - 1] != ' '
      {
        if i > |w| + 1 {
          assert s[i] == j[i - |w| - 1] && s[i - 1] == j[i - |w| - 2];
        }
      }
    }
  }

  lemma {:induction false} JoinNonEmpty(ts: seq<string>)
    requires |ts| > 0 && forall i :: 0 <= i < |ts| ==> |ts[i]| > 0
    ensures |Join(ts)| > 0
  {
  }

  /**
   * The string handed to the stemmer holds only `a`-`z` and single spaces, has no leading
   * or trailing space, and its tokens are exactly the kept tokens, none of them a stopword.
   */
  /** What follows a separator in a canonical string is again canonical and non-empty. */
  lemma CanonicalAfterSpace(s: string, k: nat)
    requires IsCanonical(s) && k < |s| && s[k] == ' '
    ensures |s[k + 1..]| > 0 && s[k + 1] != ' ' && !IsSpace(s[k + 1])
    ensures IsCanonical(s[k + 1..])
  {
    var t := s[k + 1..];
    assert forall i :: 0 <= i < |t| ==> t[i] == s[k + 1 + i];
  }

  /** A canonical string is the single-space join of its own tokens, so its tokens determine it. */
  lemma {:induction false} CanonicalIsJoin(s: string)
    requires IsCanonical(s)
    ensures Join(Split(s)) == s
    decreases |s|
  {
    if |s| > 0 {
      var n := RunLen(s);
      if n == |s| {
        SingleToken(s);
      } else {
        CanonicalSeparator(s, n);
        var t := s[n + 1..];
        CanonicalAfterSpace(s, n);
        CanonicalIsJoin(t);
        SplitAtSeparator(s, n);
        JoinAtSeparator(s, n);
      }
    }
  }

  /** A non-empty string without whitespace is a single token. */
  lemma SingleToken(s: string)
    requires |s| > 0 && RunLen(s) == |s|
    ensures Join(Split(s)) == s
  {
    assert s[..|s|] == s && s[|s|..] == "";
  }

  /** The first whitespace of a non-empty canonical string is a space after a token. */
  lemma CanonicalSeparator(s: string, n: nat)
    requires IsCanonical(s) && |s| > 0 && n == RunLen(s) && n < |s|
    ensures 0 < n && s[n] == ' '
  {
    assert !IsSpace(s[0]);
  }

  /** Rejoining the first token and the rejoined rest restores `s`. */
  lemma JoinAtSeparator(s: string, n: nat)
    requires 0 < n < |s| && s[n] == ' '
    requires Split(s) == [s[..n]] + Split(s[n + 1..]) && |Split(s[n + 1..])| > 0
    requires Join(Split(s[n + 1..])) == s[n + 1..]
    ensures Join(Split(s)) == s
  {
    var ts := Split(s[n + 1..]);
    assert ([s[..n]] + ts)[1..] == ts;
    assert s == s[..n] + " " + s[n + 1..];
  }

  /** In a canonical string the first token ends at the first separator. */
  lemma SplitAtSeparator(s: string, n: nat)
    requires n == RunLen(s) && 0 < n < |s| && s[n] == ' '
    requires |s[n + 1..]| > 0 && !IsSpace(s[n + 1])
    ensures Split(s) == [s[..n]] + Split(s[n + 1..])
    ensures |Split(s[n + 1..])| > 0
  {
    assert s[n..][1..] == s[n + 1..];
  }

  lemma CleanTextShape(stopwords: set<string>, text: string)
    ensures IsCanonical(CleanForStem(stopwords, text))
    ensures Split(CleanForStem(stopwords, text)) == Tokens(stopwords, text)
    ensures forall t :: t in Split(CleanForStem(stopwords, text)) ==> t !in stopwords
  {
    var letters := KeepLetters(StripUrls(Lower(text)));
    var ts := Tokens(stopwords, text);
    SplitLetterWords(letters);
    forall k | 0 <= k < |ts|
      ensures IsLetterWord(ts[k])
    {
      assert ts[k] in Split(letters);
    }
    JoinCanonical(ts);
    SplitJoin(ts);
  }

  /** A single word splits to itself. */
  lemma SplitOneWord(w: string)
    requires IsWord(w)
    ensures Split(w) == [w]
  {
    SplitJoin([w]);
  }

  /**
   * The cleaning is not idempotent. In `ww!wx` no URL match starts anywhere (the run
   * `ww!wx` does not begin with `www`), so the URL substitution keeps it; the character
   * filter then drops `!` and produces `wwwx`, which a second cleaning removes as a URL.
   */
  lemma BrokenUrlSurvivesStripping()
    ensures StripUrls("ww!wx") == "ww!wx"
  {
    var s := "ww!wx";
    assert !UrlAt(s[4..]) && !UrlAt(s[3..]) by {
      assert RunLen(s[4..]) == 1;
      assert RunLen(s[3..]) == 2;
    }
    assert !UrlAt(s[2..]) by {
      assert s[2..][0] == '!';
    }
    assert !UrlAt(s[1..]) by {
      assert s[1..][1] == '!' && s[1..][0] == 'w';
    }
    assert !UrlAt(s) by {
      assert s[2] == '!' && s[0] == 'w';
    }
    assert StripUrls(s[4..]) == s[4..];
    assert StripUrls(s[3..]) == s[3..];
    assert StripUrls(s[2..]) == s[2..];
    assert StripUrls(s[1..]) == s[1..];
  }

  lemma BrokenUrlIsLowercase()
    ensures Lower("ww!wx") == "ww!wx"
  {
    var s := "ww!wx";
    assert forall i :: 0 <= i < |s| ==> LowerChar(s[i]) == s[i];
  }

  lemma BrokenUrlLosesPunctuation()
    ensures KeepLetters("ww!wx") == "wwwx"
  {
    var s := "ww!wx";
    assert KeepLetters(s[4..]) == "x";
    assert KeepLetters(s[3..]) == "wx";
    assert KeepLetters(s[2..]) == "wx";
    assert KeepLetters(s[1..]) == "wwx";
  }

  lemma BrokenUrlIsRejoined()
    ensures CleanForStem({}, "ww!wx") == "wwwx"
  {
    BrokenUrlIsLowercase();
    BrokenUrlSurvivesStripping();
    BrokenUrlLosesPunctuation();
    SplitOneWord("wwwx");
    assert RemoveStopwords(["wwwx"], {}) == ["wwwx"];
  }

  lemma RejoinedUrlIsStripped()
    ensures CleanForStem({}, "wwwx") == ""
  {
    assert Lower("wwwx") == "wwwx";
    assert StripUrls("wwwx") == "";
    assert Split(KeepLetters("")) == [];
  }

  /** Cleaning the cleaned text can change it again. */
  lemma CleaningNotIdempotent()
    ensures CleanForStem({}, CleanForStem({}, "ww!wx")) != CleanForStem({}, "ww!wx")
  {
    BrokenUrlIsRejoined();
    RejoinedUrlIsStripped();
  }
}

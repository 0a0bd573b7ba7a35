/**
 * Feature extraction: the frequency-based keyword extractor, the seven
 * numeric sensor features pulled from a payload, and the carbon heuristic.
 *
 * Text is modelled as ASCII (`Lower` maps only A–Z); the tokeniser is the
 * regular expression `[a-zA-Z]{3,}` written out as a scan for maximal runs
 * of letters.
 */
module Extractor {
  import opened Common

  // ---------------------------------------------------------------------------
  // extract_keywords: tokens
  // ---------------------------------------------------------------------------

  const STOP_WORDS: set<string> := {
    "the", "a", "an", "is", "it", "in", "on", "at", "to", "and",
    "of", "for", "with", "this", "that", "are", "was", "be"
  }

  const DEFAULT_TOP_N: int := 10

  /** The end of the run of letters that starts at `i`. */
  function RunEnd(s: string, i: nat): (j: nat)
    requires i <= |s|
    ensures i <= j <= |s|
    ensures forall k :: i <= k < j ==> IsAsciiLetter(s[k])
    ensures j < |s| ==> !IsAsciiLetter(s[j])
    decreases |s| - i
  {
    if i == |s| || !IsAsciiLetter(s[i]) then i else RunEnd(s, i + 1)
  }

  /** The matches of `[a-zA-Z]{3,}` from position `i` on: every maximal run of at least three letters. */
  function TokensFrom(s: string, i: nat): (r: seq<string>)
    requires i <= |s|
    ensures forall t :: t in r ==> |t| >= 3
    ensures forall t :: t in r ==> forall k :: 0 <= k < |t| ==> IsAsciiLetter(t[k])
    decreases |s| - i
  {
    if i == |s| then []
    else if !IsAsciiLetter(s[i]) then TokensFrom(s, i + 1)
    else
      var j := RunEnd(s, i);
      (if j - i >= 3 then [s[i..j]] else []) + TokensFrom(s, j)
  }

  /** `re.findall(r"[a-zA-Z]{3,}", text.lower())`. */
  function Tokens(text: string): (r: seq<string>)
    ensures forall t :: t in r ==> |t| >= 3 && forall k :: 0 <= k < |t| ==> IsAsciiLetter(t[k])
  {
    TokensFrom(Lower(text), 0)
  }

  /** A string without upper-case letters yields only lower-case tokens. */
  lemma {:induction false} TokensFromLower(s: string, i: nat)
    requires i <= |s|
    requires forall k :: 0 <= k < |s| ==> !IsAsciiUpper(s[k])
    ensures forall t :: t in TokensFrom(s, i) ==> forall k :: 0 <= k < |t| ==> IsAsciiLower(t[k])
    decreases |s| - i
  {
    if i < |s| {
      if !IsAsciiLetter(s[i]) {
        TokensFromLower(s, i + 1);
      } else {
        TokensFromLower(s, RunEnd(s, i));
      }
    }
  }

  /** Every token is at least three lower-case letters long. */
  lemma TokensAreLowerWords(text: string)
    ensures forall t :: t in Tokens(text) ==> |t| >= 3 && forall k :: 0 <= k < |t| ==> IsAsciiLower(t[k])
  {
    TokensFromLower(Lower(text), 0);
  }

  // ---------------------------------------------------------------------------
  // extract_keywords: the frequency dictionary
  // ---------------------------------------------------------------------------

  predicate Distinct(s: seq<string>)
  {
    forall i, j :: 0 <= i < j < |s| ==> s[i] != s[j]
  }

  /** How often `w` occurs in `ts`. */
  function Occurrences(ts: seq<string>, w: string): (n: nat)
    ensures n > 0 <==> w in ts
  {
    if ts == [] then 0
    else
      assert ts == ts[..|ts| - 1] + [ts[|ts| - 1]];
      Occurrences(ts[..|ts| - 1], w) + (if ts[|ts| - 1] == w then 1 else 0)
  }

  /** The keys of the frequency dictionary in insertion order: each non-stop word at its first occurrence. */
  function Vocabulary(ts: seq<string>): (r: seq<string>)
    ensures forall w :: w in r <==> w in ts && w !in STOP_WORDS
    ensures Distinct(r)
  {
    if ts == [] then []
    else
      var v := Vocabulary(ts[..|ts| - 1]);
      var t := ts[|ts| - 1];
      if t in STOP_WORDS || t in v then v else v + [t]
  }

  /** The frequency dictionary: every non-stop word mapped to its number of occurrences. */
  function Frequencies(ts: seq<string>): map<string, nat>
  {
    if ts == [] then map[]
    else
      var m := Frequencies(ts[..|ts| - 1]);
      var t := ts[|ts| - 1];
      if t in STOP_WORDS then m
      else m[t := (if t in m then m[t] else 0) + 1]
  }

  /** The dictionary holds every non-stop word of the tokens, mapped to its number of occurrences. */
  lemma {:induction false} FrequenciesCount(ts: seq<string>)
    ensures forall w :: w in Frequencies(ts) <==> w in ts && w !in STOP_WORDS
    ensures forall w :: w in Frequencies(ts) ==> Frequencies(ts)[w] == Occurrences(ts, w)
  {
    if ts != [] {
      var init := ts[..|ts| - 1];
      FrequenciesCount(init);
      assert ts == init + [ts[|ts| - 1]];
    }
  }

  /** Every word of the vocabulary has a count. */
  lemma VocabularyCounted(ts: seq<string>)
    ensures forall w :: w in Vocabulary(ts) ==> w in Frequencies(ts)
  {
    FrequenciesCount(ts);
  }

  /** One more token: a new non-stop word joins the vocabulary at the end. */
  lemma VocabularySnoc(ts: seq<string>, t: string)
    ensures Vocabulary(ts + [t])
            == if t in STOP_WORDS || t in Vocabulary(ts) then Vocabulary(ts) else Vocabulary(ts) + [t]
  {
    assert (ts + [t])[..|ts|] == ts;
  }

  /** One more token: a non-stop word's count goes up by one, starting from one. */
  lemma FrequenciesSnoc(ts: seq<string>, t: string)
    ensures Frequencies(ts + [t])
            == if t in STOP_WORDS then Frequencies(ts)
               else Frequencies(ts)[t := (if t in Frequencies(ts) then Frequencies(ts)[t] else 0) + 1]
  {
    assert (ts + [t])[..|ts|] == ts;
  }

  /** A word listed before another was already seen by the time the later one first occurs. */
  lemma {:induction false} VocabularyInFirstOccurrenceOrder(ts: seq<string>)
    ensures forall i, j, k :: 0 <= i < j < |Vocabulary(ts)| && 0 <= k < |ts| && ts[k] == Vocabulary(ts)[j]
                              ==> Vocabulary(ts)[i] in ts[..k]
  {
    if ts != [] {
      var init := ts[..|ts| - 1];
      VocabularyInFirstOccurrenceOrder(init);
      var v := Vocabulary(ts);
      var v0 := Vocabulary(init);
      forall i, j, k | 0 <= i < j < |v| && 0 <= k < |ts| && ts[k] == v[j]
        ensures v[i] in ts[..k]
      {
        assert v[i] == v0[i];
        if k < |ts| - 1 {
          assert ts[..k] == init[..k];
          if j < |v0| {
            assert 0 <= i < j < |v0| && 0 <= k < |init| && init[k] == v0[j];
            assert v0[i] in init[..k];
          } else {
            assert false;
          }
        } else {
          assert ts[..k] == init;
        }
      }
    }
  }

  // ---------------------------------------------------------------------------
  // extract_keywords: sorted(freq, key=freq.get, reverse=True)
  // ---------------------------------------------------------------------------

  predicate Counted(s: seq<string>, f: map<string, nat>)
  {
    forall x :: x in s ==> x in f
  }

  /**
   * Inserts `w` behind every word counted at least as often, scanning from the
   * back: the step of a stable sort in descending order of count.
   */
  function InsertByCount(s: seq<string>, w: string, f: map<string, nat>): (r: seq<string>)
    requires Counted(s, f) && w in f
    ensures multiset(r) == multiset(s) + multiset{w} && |r| == |s| + 1
    ensures forall x :: x in r ==> x in s || x == w
    ensures Counted(r, f)
    decreases |s|
  {
    if s == [] then [w]
    else
      var last := s[|s| - 1];
      assert s == s[..|s| - 1] + [last];
      if f[last] >= f[w] then s + [w]
      else InsertByCount(s[..|s| - 1], w, f) + [last]
  }

  /** Python's stable `sorted(keys, key=f.get, reverse=True)`. */
  function SortByCount(keys: seq<string>, f: map<string, nat>): (r: seq<string>)
    requires Counted(keys, f)
    ensures multiset(r) == multiset(keys) && |r| == |keys|
    ensures Counted(r, f)
  {
    if keys == [] then []
    else
      var init := keys[..|keys| - 1];
      assert keys == init + [keys[|keys| - 1]];
      InsertByCount(SortByCount(init, f), keys[|keys| - 1], f)
  }

  predicate NonIncreasing(s: seq<string>, f: map<string, nat>)
    requires Counted(s, f)
  {
    forall i, j :: 0 <= i < j < |s| ==> f[s[i]] >= f[s[j]]
  }

  /** The words of `s` counted exactly `c` times, in their order in `s`. */
  function WithCount(s: seq<string>, f: map<string, nat>, c: nat): (r: seq<string>)
    requires Counted(s, f)
  {
    if s == [] then []
    else WithCount(s[..|s| - 1], f, c) + (if f[s[|s| - 1]] == c then [s[|s| - 1]] else [])
  }

  lemma {:induction false} InsertKeepsOrder(s: seq<string>, w: string, f: map<string, nat>)
    requires Counted(s, f) && w in f && NonIncreasing(s, f)
    ensures NonIncreasing(InsertByCount(s, w, f), f)
    decreases |s|
  {
    if s != [] {
      var last := s[|s| - 1];
      var init := s[..|s| - 1];
      if f[last] < f[w] {
        InsertKeepsOrder(init, w, f);
        var t := InsertByCount(init, w, f);
        forall x | x in t ensures f[x] >= f[last]
        {
          if x != w {
            var idx :| 0 <= idx < |init| && init[idx] == x;
            assert s[idx] == x;
          }
        }
        var r := t + [last];
        forall i, j | 0 <= i < j < |r| ensures f[r[i]] >= f[r[j]]
        {
          if j < |t| {
            assert r[i] == t[i] && r[j] == t[j];
          } else {
            assert r[i] == t[i] && t[i] in t;
          }
        }
      }
    }
  }

  lemma WithCountSnoc(s: seq<string>, x: string, f: map<string, nat>, c: nat)
    requires Counted(s, f) && x in f
    ensures WithCount(s + [x], f, c) == WithCount(s, f, c) + (if f[x] == c then [x] else [])
  {
    assert (s + [x])[..|s|] == s;
  }

  /** Inserting adds `w` at the end of its own count's group and leaves every other group alone. */
  lemma {:induction false} InsertWithCount(s: seq<string>, w: string, f: map<string, nat>, c: nat)
    requires Counted(s, f) && w in f
    ensures WithCount(InsertByCount(s, w, f), f, c) == WithCount(s, f, c) + (if f[w] == c then [w] else [])
    decreases |s|
  {
    if s == [] {
      WithCountSnoc([], w, f, c);
    } else {
      var last := s[|s| - 1];
      var init := s[..|s| - 1];
      assert s == init + [last];
      if f[last] >= f[w] {
        WithCountSnoc(s, w, f, c);
      } else {
        var t := InsertByCount(init, w, f);
        InsertWithCount(init, w, f, c);
        WithCountSnoc(t, last, f, c);
        WithCountSnoc(init, last, f, c);
        var base := WithCount(init, f, c);
        if f[w] == c {
          assert WithCount(t + [last], f, c) == base + [w];
        } else if f[last] == c {
          assert WithCount(t + [last], f, c) == base + [last];
        } else {
          assert WithCount(t + [last], f, c) == base;
        }
      }
    }
  }

  /** The sort orders by count, highest first. */
  lemma {:induction false} SortNonIncreasing(keys: seq<string>, f: map<string, nat>)
    requires Counted(keys, f)
    ensures NonIncreasing(SortByCount(keys, f), f)
  {
    if keys != [] {
      var init := keys[..|keys| - 1];
      SortNonIncreasing(init, f);
      var rest := SortByCount(init, f);
      assert forall x :: x in rest ==> x in multiset(init);
      InsertKeepsOrder(rest, keys[|keys| - 1], f);
    }
  }

  /** The sort is stable: words with equal counts keep their relative order. */
  lemma {:induction false} SortStable(keys: seq<string>, f: map<string, nat>, c: nat)
    requires Counted(keys, f)
    ensures WithCount(SortByCount(keys, f), f, c) == WithCount(keys, f, c)
  {
    if keys != [] {
      var init := keys[..|keys| - 1];
      SortStable(init, f, c);
      var rest := SortByCount(init, f);
      assert forall x :: x in rest ==> x in multiset(init);
      InsertWithCount(rest, keys[|keys| - 1], f, c);
    }
  }

  lemma WithCountOfPrefix(s: seq<string>, f: map<string, nat>, c: nat, n: nat)
    requires Counted(s, f) && n <= |s|
    ensures WithCount(s[..n], f, c) <= WithCount(s, f, c)
    decreases |s|
  {
    if n < |s| {
      WithCountOfPrefix(s[..|s| - 1], f, c, n);
      assert s[..|s| - 1][..n] == s[..n];
    } else {
      assert s[..n] == s;
    }
  }

  // ---------------------------------------------------------------------------
  // extract_keywords
  // ---------------------------------------------------------------------------

  /** The vocabulary of a token list, most frequent first (Python's stable sort of the dictionary's keys). */
  function Ranking(ts: seq<string>): seq<string>
  {
    VocabularyCounted(ts);
    SortByCount(Vocabulary(ts), Frequencies(ts))
  }

  /** The first `topN` words of the ranking, with Python's slice semantics for a negative `topN`. */
  function TopWords(ts: seq<string>, topN: int): (r: seq<string>)
    ensures topN >= 0 ==> |r| <= topN
    ensures |r| <= |Ranking(ts)| && r == Ranking(ts)[..|r|]
  {
    PyPrefix(Ranking(ts), topN)
  }

  /** The specification of `extract_keywords`. */
  function Keywords(text: string, topN: int): (r: seq<string>)
    ensures topN >= 0 ==> |r| <= topN
    ensures |r| <= |Ranking(Tokens(text))| && r == Ranking(Tokens(text))[..|r|]
  {
    TopWords(Tokens(text), topN)
  }

  /** The counting loop of `extract_keywords`: the dictionary and the order its keys were inserted in. */
  method CountTokens(tokens: seq<string>) returns (freq: map<string, nat>, order: seq<string>)
    ensures freq == Frequencies(tokens) && order == Vocabulary(tokens)
  {
    freq := map[];
    order := [];
    for i := 0 to |tokens|
      invariant freq == Frequencies(tokens[..i])
      invariant order == Vocabulary(tokens[..i])
    {
      var tok := tokens[i];
      assert tokens[..i + 1] == tokens[..i] + [tok];
      VocabularySnoc(tokens[..i], tok);
      FrequenciesSnoc(tokens[..i], tok);
      FrequenciesCount(tokens[..i]);
      if tok !in STOP_WORDS {
        if tok !in freq {
          order := order + [tok];
        }
        freq := freq[tok := (if tok in freq then freq[tok] else 0) + 1];
      }
    }
    assert tokens[..|tokens|] == tokens;
  }

  /** `extract_keywords`: tokenise, count the non-stop tokens, sort the dictionary's keys by count and keep `topN`. */
  method ExtractKeywords(text: string, topN: int) returns (keywords: seq<string>)
    ensures keywords == Keywords(text, topN)
  {
    var tokens := Tokens(text);
    var freq, order := CountTokens(tokens);
    VocabularyCounted(tokens);
    keywords := PyPrefix(SortByCount(order, freq), topN);
  }

  /** A word that appears twice in a sequence is counted twice by its multiset. */
  lemma RepeatCountsTwice(s: seq<string>, i: nat, j: nat)
    requires i < j < |s| && s[i] == s[j]
    ensures multiset(s)[s[i]] >= 2
  {
    assert s == s[..i] + [s[i]] + s[i + 1..j] + [s[j]] + s[j + 1..];
  }

  lemma {:induction false} DistinctCountsOnce(s: seq<string>, w: string)
    requires Distinct(s)
    ensures multiset(s)[w] <= 1
  {
    if s != [] {
      var init := s[..|s| - 1];
      DistinctCountsOnce(init, w);
      assert s == init + [s[|s| - 1]];
      if s[|s| - 1] == w {
        assert w !in init;
      }
    }
  }

  /** Rearranging distinct words keeps them distinct. */
  lemma PermutationKeepsDistinct(a: seq<string>, b: seq<string>)
    requires Distinct(a) && multiset(a) == multiset(b)
    ensures Distinct(b)
  {
    forall i, j | 0 <= i < j < |b| ensures b[i] != b[j]
    {
      if b[i] == b[j] {
        RepeatCountsTwice(b, i, j);
        DistinctCountsOnce(a, b[i]);
      }
    }
  }

  /** The ranking holds exactly the vocabulary: every non-stop token, once. */
  lemma RankingIsVocabulary(ts: seq<string>)
    ensures multiset(Ranking(ts)) == multiset(Vocabulary(ts))
    ensures Distinct(Ranking(ts))
    ensures forall w :: w in Ranking(ts) <==> w in ts && w !in STOP_WORDS
  {
    var r := Ranking(ts);
    var v := Vocabulary(ts);
    PermutationKeepsDistinct(v, r);
    forall w ensures w in r <==> w in v
    {
      assert w in r <==> w in multiset(r);
      assert w in v <==> w in multiset(v);
    }
  }

  /** At most `topN` words when `topN` is not negative, never the same word twice, each a non-stop token. */
  lemma TopWordsAreVocabulary(ts: seq<string>, topN: int)
    ensures var r := TopWords(ts, topN);
            (topN >= 0 ==> |r| <= topN) && Distinct(r)
            && forall w :: w in r ==> w in ts && w !in STOP_WORDS
  {
    RankingIsVocabulary(ts);
    var r := TopWords(ts, topN);
    assert forall w :: w in r ==> w in Ranking(ts);
  }

  /** Every keyword is a non-stop token of the text, at least three lower-case letters long. */
  lemma KeywordsAreWords(text: string, topN: int)
    ensures forall w :: w in Keywords(text, topN) ==>
              w in Tokens(text) && w !in STOP_WORDS && |w| >= 3 && forall k :: 0 <= k < |w| ==> IsAsciiLower(w[k])
  {
    TopWordsAreVocabulary(Tokens(text), topN);
    TokensAreLowerWords(text);
  }

  /** Words come by number of occurrences, most frequent first. */
  lemma TopWordsMostFrequentFirst(ts: seq<string>, topN: int)
    ensures var r := TopWords(ts, topN);
            forall i, j :: 0 <= i < j < |r| ==> Occurrences(ts, r[i]) >= Occurrences(ts, r[j])
  {
    var f := Frequencies(ts);
    VocabularyCounted(ts);
    SortNonIncreasing(Vocabulary(ts), f);
    FrequenciesCount(ts);
    var ranking := Ranking(ts);
    var r := TopWords(ts, topN);
    forall i, j | 0 <= i < j < |r| ensures Occurrences(ts, r[i]) >= Occurrences(ts, r[j])
    {
      assert r[i] == ranking[i] && r[j] == ranking[j];
      assert f[ranking[i]] >= f[ranking[j]];
    }
  }

  /** No word left out occurs more often than a word returned. */
  lemma OmittedNotMoreFrequent(ts: seq<string>, topN: int, w: string, x: string)
    requires w in ts && w !in STOP_WORDS && w !in TopWords(ts, topN) && x in TopWords(ts, topN)
    ensures Occurrences(ts, x) >= Occurrences(ts, w)
  {
    var f := Frequencies(ts);
    var ranking := Ranking(ts);
    VocabularyCounted(ts);
    SortNonIncreasing(Vocabulary(ts), f);
    RankingIsVocabulary(ts);
    FrequenciesCount(ts);
    var n := |TopWords(ts, topN)|;
    assert TopWords(ts, topN) == ranking[..n];
    PrefixHoldsTheMost(ranking, f, n, w, x);
  }

  /** In a ranking by count, a word inside a prefix is counted at least as often as one outside it. */
  lemma PrefixHoldsTheMost(ranking: seq<string>, f: map<string, nat>, n: nat, w: string, x: string)
    requires Counted(ranking, f) && NonIncreasing(ranking, f) && n <= |ranking|
    requires w in ranking && w !in ranking[..n] && x in ranking[..n]
    ensures f[x] >= f[w]
  {
    var a :| 0 <= a < n && ranking[..n][a] == x;
    var b :| 0 <= b < |ranking| && ranking[b] == w;
    if b < n {
      assert false;
    }
    assert ranking[a] == x;
  }

  /**
   * Words with the same count keep the order of the dictionary's keys, that
   * is of their first occurrence (`VocabularyInFirstOccurrenceOrder`).
   */
  lemma TopWordsTiesInFirstOccurrenceOrder(ts: seq<string>, topN: int, c: nat)
    ensures Counted(Vocabulary(ts), Frequencies(ts)) && Counted(TopWords(ts, topN), Frequencies(ts))
    ensures WithCount(TopWords(ts, topN), Frequencies(ts), c) <= WithCount(Vocabulary(ts), Frequencies(ts), c)
  {
    var f := Frequencies(ts);
    var v := Vocabulary(ts);
    VocabularyCounted(ts);
    var ranking := Ranking(ts);
    SortStable(v, f, c);
    assert TopWords(ts, topN) == ranking[..|TopWords(ts, topN)|];
    WithCountOfPrefix(ranking, f, c, |TopWords(ts, topN)|);
  }

  /** When `topN` covers the whole vocabulary, every non-stop token is returned. */
  lemma TopWordsComplete(ts: seq<string>, topN: int)
    requires topN >= |Vocabulary(ts)|
    ensures forall w :: w in ts && w !in STOP_WORDS ==> w in TopWords(ts, topN)
  {
    RankingIsVocabulary(ts);
    assert TopWords(ts, topN) == Ranking(ts);
  }

  // ---------------------------------------------------------------------------
  // extract_numeric_features
  // ---------------------------------------------------------------------------

  const NUMERIC_KEYS: seq<string> := [
    "co2_ppm", "temperature_c", "humidity_pct", "energy_kwh",
    "pm25_ugm3", "methane_ppm", "solar_irradiance"
  ]

  /**
   * A payload value as `float()` sees it: a number, a string that does not
   * parse as one (`ValueError`), or a value of another type such as `None`
   * (`TypeError`).
   */
  datatype Scalar = Number(x: real) | Unparsable | NotNumeric

  /** The name of the exception `float()` raises for a value it cannot convert. */
  function ConversionError(v: Scalar): string
    requires !v.Number?
  {
    if v.Unparsable? then "ValueError" else "TypeError"
  }

  /**
   * The exception the comprehension raises: the one for the first key, in
   * the order of `keys`, whose value is present and not a number.
   */
  function FirstFailure(keys: seq<string>, payload: map<string, Scalar>): (r: Option<string>)
    ensures r.None? <==> forall i :: 0 <= i < |keys| && keys[i] in payload ==> payload[keys[i]].Number?
    ensures r.Some? ==> exists i :: 0 <= i < |keys| && keys[i] in payload && !payload[keys[i]].Number?
                          && r.value == ConversionError(payload[keys[i]])
                          && forall j :: 0 <= j < i && keys[j] in payload ==> payload[keys[j]].Number?
  {
    if keys == [] then None
    else if keys[0] in payload && !payload[keys[0]].Number? then Some(ConversionError(payload[keys[0]]))
    else
      var rest := FirstFailure(keys[1..], payload);
      assert rest.Some? ==> exists i :: 1 <= i < |keys| && keys[i] in payload && !payload[keys[i]].Number?
                             && rest.value == ConversionError(payload[keys[i]])
                             && forall j :: 0 <= j < i && keys[j] in payload ==> payload[keys[j]].Number? by {
        if rest.Some? {
          var i :| 0 <= i < |keys[1..]| && keys[1..][i] in payload && !payload[keys[1..][i]].Number?
                   && rest.value == ConversionError(payload[keys[1..][i]])
                   && forall j :: 0 <= j < i && keys[1..][j] in payload ==> payload[keys[1..][j]].Number?;
          assert forall j :: 1 <= j < i + 1 ==> keys[j] == keys[1..][j - 1];
        }
      }
      assert rest.None? ==> forall i :: 1 <= i < |keys| && keys[i] in payload ==> payload[keys[i]].Number? by {
        if rest.None? {
          assert forall i :: 1 <= i < |keys| ==> keys[i] == keys[1..][i - 1];
        }
      }
      rest
  }

  /**
   * `extract_numeric_features`: the seven keys, each the converted value or
   * `None`; a present value `float()` rejects raises its exception.
   */
  function ExtractNumericFeatures(payload: map<string, Scalar>): (r: Result<map<string, Option<real>>, string>)
    ensures r.Ok? <==> forall k :: k in NUMERIC_KEYS && k in payload ==> payload[k].Number?
    ensures r.Err? ==> r.error == "ValueError" || r.error == "TypeError"
    ensures r.Ok? ==> r.value.Keys == set k | k in NUMERIC_KEYS
    ensures r.Ok? ==> forall k :: k in NUMERIC_KEYS ==> (r.value[k].None? <==> k !in payload)
    ensures r.Ok? ==> forall k :: k in NUMERIC_KEYS && k in payload ==> r.value[k] == Some(payload[k].x)
  {
    var failure := FirstFailure(NUMERIC_KEYS, payload);
    if failure.Some? then Err(failure.value)
    else Ok(map k | k in NUMERIC_KEYS :: if k in payload then Some(payload[k].x) else None)
  }

  // ---------------------------------------------------------------------------
  // calculate_carbon_score
  // ---------------------------------------------------------------------------

  /** `d.get(k)` on a dictionary of optional floats. */
  function Get(d: map<string, Option<real>>, k: string): Option<real>
  {
    if k in d then d[k] else None
  }

  /**
   * The carbon heuristic, before rounding to two decimals: 50, plus
   * min((co2 - 400) / 20, 30) when CO₂ is truthy, plus min(energy * 5, 20)
   * when energy is truthy, clipped to [0, 100].
   */
  function CarbonHeuristic(co2: Option<real>, energy: Option<real>): (r: real)
    ensures 0.0 <= r <= 100.0
  {
    var fromCo2 := if Truthy(co2) then Min((co2.value - 400.0) / 20.0, 30.0) else 0.0;
    var fromEnergy := if Truthy(energy) then Min(energy.value * 5.0, 20.0) else 0.0;
    Clamp(50.0 + fromCo2 + fromEnergy, 0.0, 100.0)
  }

  /** `calculate_carbon_score`, which builds the score step by step. */
  method CalculateCarbonScore(numeric: map<string, Option<real>>) returns (score: real)
    ensures 0.0 <= score <= 100.0
    ensures score == CarbonHeuristic(Get(numeric, "co2_ppm"), Get(numeric, "energy_kwh"))
  {
    score := 50.0;
    var co2 := Get(numeric, "co2_ppm");
    if Truthy(co2) {
      score := score + Min((co2.value - 400.0) / 20.0, 30.0);
    }
    var energy := Get(numeric, "energy_kwh");
    if Truthy(energy) {
      score := score + Min(energy.value * 5.0, 20.0);
    }
    score := Max(0.0, Min(100.0, score));
  }

  /** With CO₂ and energy both missing, `None` or zero the score is the 50 baseline. */
  lemma NoReadingsScoreFifty(co2: Option<real>, energy: Option<real>)
    requires !Truthy(co2) && !Truthy(energy)
    ensures CarbonHeuristic(co2, energy) == 50.0
  {
  }

  /** CO₂ below the 400 ppm background lowers the score below the baseline. */
  lemma LowCo2LowersScore(co2: real, energy: Option<real>)
    requires 0.0 < co2 < 400.0 && !Truthy(energy)
    ensures CarbonHeuristic(Some(co2), energy) < 50.0
  {
  }

  /** CO₂ at 1000 ppm and energy at 4 kWh each reach their caps, for the full 100. */
  lemma CapsReachHundred(co2: real, energy: real)
    requires co2 >= 1000.0 && energy >= 4.0
    ensures CarbonHeuristic(Some(co2), Some(energy)) == 100.0
  {
  }

  /** Among non-zero readings, more CO₂ or more energy never lowers the score. */
  lemma CarbonMonotone(co2: real, co2b: real, energy: real, energyb: real)
    requires co2 != 0.0 && co2b != 0.0 && energy != 0.0 && energyb != 0.0
    requires co2 <= co2b && energy <= energyb
    ensures CarbonHeuristic(Some(co2), Some(energy)) <= CarbonHeuristic(Some(co2b), Some(energyb))
  {
    var a := 50.0 + Min((co2 - 400.0) / 20.0, 30.0) + Min(energy * 5.0, 20.0);
    var b := 50.0 + Min((co2b - 400.0) / 20.0, 30.0) + Min(energyb * 5.0, 20.0);
    ClampMonotone(a, b, 0.0, 100.0);
  }

  /** A payload with none of the seven keys extracts to all `None`, which scores the baseline. */
  lemma EmptyPayloadScoresFifty(payload: map<string, Scalar>)
    requires forall k :: k in NUMERIC_KEYS ==> k !in payload
    ensures var r := ExtractNumericFeatures(payload);
            r.Ok? && CarbonHeuristic(Get(r.value, "co2_ppm"), Get(r.value, "energy_kwh")) == 50.0
  {
    var r := ExtractNumericFeatures(payload);
    assert "co2_ppm" in NUMERIC_KEYS && "energy_kwh" in NUMERIC_KEYS;
    assert r.value["co2_ppm"].None? && r.value["energy_kwh"].None?;
  }
}

/** Keyword extraction from keyword_extractor.py: a fallback path that ranks the letter words found
    by the pattern `\b[a-zA-Z]{3,}\b`, and a primary path that ranks the nouns found by a
    tokenizer, a stopword corpus and a part-of-speech tagger, which are parameters here. */
module KeywordExtractor {
  import opened Outcomes
  import opened Text
  import opened Seqs
  import opened Ranking

  // ---------------------------------------------------------------------------------------------
  // The pattern \b[a-zA-Z]{3,}\b and re.findall

  /** A character of the regular-expression class `\w`, restricted to ASCII. */
  predicate IsWordChar(c: char)
  {
    'a' <= c <= 'z' || 'A' <= c <= 'Z' || '0' <= c <= '9' || c == '_'
  }

  predicate IsAsciiLetter(c: char)
  {
    'a' <= c <= 'z' || 'A' <= c <= 'Z'
  }

  /** `\b` holds at position `i` of `s`: exactly one of the characters on either side of `i` is a
      word character (outside the string counts as a non-word character). */
  predicate AtBoundary(s: string, i: int)
    requires 0 <= i <= |s|
  {
    (0 < i && IsWordChar(s[i - 1])) != (i < |s| && IsWordChar(s[i]))
  }

  /** `s[p..q]` is a match of `\b[a-zA-Z]{3,}\b`. */
  predicate IsMatch(s: string, p: int, q: int)
  {
    && 0 <= p && p + 3 <= q <= |s|
    && (forall k :: p <= k < q ==> IsAsciiLetter(s[k]))
    && AtBoundary(s, p)
    && AtBoundary(s, q)
  }

  datatype Span = Span(start: nat, end: nat)

  /** The end of the run of word characters that starts at `i`. */
  function WordEnd(s: string, i: nat): (j: nat)
    requires i <= |s|
    ensures i <= j <= |s|
    ensures forall k :: i <= k < j ==> IsWordChar(s[k])
    ensures j == |s| || !IsWordChar(s[j])
    decreases |s| - i
  {
    if i == |s| || !IsWordChar(s[i]) then i else WordEnd(s, i + 1)
  }

  predicate AllLetters(s: string, i: nat, j: nat)
    requires i <= j <= |s|
  {
    forall k :: i <= k < j ==> IsAsciiLetter(s[k])
  }

  /** Position `i` does not lie strictly inside a run of word characters. */
  predicate OutsideWord(s: string, i: nat)
    requires i <= |s|
  {
    i == 0 || i == |s| || !IsWordChar(s[i - 1]) || !IsWordChar(s[i])
  }

  /** The spans `re.findall` matches in `s` from position `i` on, left to right: every run of word
      characters made of at least three ASCII letters. Each listed span is a match. */
  function MatchSpans(s: string, i: nat): (r: seq<Span>)
    requires i <= |s| && OutsideWord(s, i)
    ensures forall k :: 0 <= k < |r| ==> i <= r[k].start && IsMatch(s, r[k].start, r[k].end)
    ensures forall k, l :: 0 <= k < l < |r| ==> r[k].end < r[l].start
    decreases |s| - i
  {
    if i == |s| then []
    else if !IsWordChar(s[i]) then MatchSpans(s, i + 1)
    else
      var j := WordEnd(s, i);
      var rest := MatchSpans(s, j);
      if j - i >= 3 && AllLetters(s, i, j) then
        assert j < |s| ==> !IsWordChar(s[j]);
        [Span(i, j)] + rest
      else rest
  }

  /** No match of the pattern is missed: every match starting at or after `i` is listed. */
  lemma {:induction false} MatchSpansComplete(s: string, i: nat, p: int, q: int)
    requires i <= |s| && OutsideWord(s, i)
    requires i <= p && IsMatch(s, p, q)
    ensures Span(p, q) in MatchSpans(s, i)
    decreases |s| - i
  {
    if !IsWordChar(s[i]) {
      MatchSpansComplete(s, i + 1, p, q);
    } else {
      var j := WordEnd(s, i);
      if p < j {
        assert p == i;
        assert q == j;
      } else {
        MatchSpansComplete(s, j, p, q);
      }
    }
  }

  /** `re.findall(r'\b[a-zA-Z]{3,}\b', s)`. */
  function FindLetterWords(s: string): (r: seq<string>)
    ensures forall k :: 0 <= k < |r| ==> |r[k]| >= 3 && forall j :: 0 <= j < |r[k]| ==> IsAsciiLetter(r[k][j])
  {
    var spans := MatchSpans(s, 0);
    seq(|spans|, k requires 0 <= k < |spans| => s[spans[k].start..spans[k].end])
  }

  /** The words found are exactly the matches of the pattern, in order of position. */
  lemma {:induction false} FindLetterWordsExact(s: string)
    ensures var spans, words := MatchSpans(s, 0), FindLetterWords(s);
      && |words| == |spans|
      && (forall k :: 0 <= k < |spans| ==>
            IsMatch(s, spans[k].start, spans[k].end) && words[k] == s[spans[k].start..spans[k].end])
      && (forall k, l :: 0 <= k < l < |spans| ==> spans[k].end < spans[l].start)
      && (forall p, q :: IsMatch(s, p, q) ==> Span(p, q) in spans)
  {
    forall p, q | IsMatch(s, p, q)
      ensures Span(p, q) in MatchSpans(s, 0)
    {
      MatchSpansComplete(s, 0, p, q);
    }
  }

  // ---------------------------------------------------------------------------------------------
  // Fallback path

  /** The articles, conjunctions, prepositions and auxiliaries of the fallback's stopword set. */
  const FunctionStopWords: set<string> :=
    {
      "the", "a", "an", "and", "or", "but", "in", "on", "at", "to", "for", "of", "with", "by",
      "is", "are", "was", "were", "be", "been", "being", "have", "has", "had", "do", "does", "did"
    }

  /** The modal verbs, demonstratives and personal pronouns of the fallback's stopword set. */
  const PronounStopWords: set<string> :=
    {
      "will", "would", "could", "should", "may", "might", "must", "can", "this", "that", "these",
      "those", "i", "you", "he", "she", "it", "we", "they", "me", "him", "her", "us", "them"
    }

  /** The possessives of the fallback's stopword set. */
  const PossessiveStopWords: set<string> :=
    {
      "my", "your", "his", "her", "its", "our", "their", "mine", "yours", "hers", "ours", "theirs"
    }

  /** The hand-listed stopwords of `extract_keywords_fallback`, as the union of its three parts. */
  const FallbackStopWords: set<string> := FunctionStopWords + PronounStopWords + PossessiveStopWords

  predicate NotFallbackStopWord(w: string)
  {
    w !in FallbackStopWords
  }

  /** `[word for word in words if word not in stop_words]` on the lowered text's matches. */
  function FallbackWords(text: string): (r: seq<string>)
    ensures IsSubsequence(r, FindLetterWords(Lower(text)))
    ensures forall k :: 0 <= k < |r| ==> NotFallbackStopWord(r[k])
  {
    var words := FindLetterWords(Lower(text));
    var r := Filter(words, NotFallbackStopWord);
    assert forall k :: 0 <= k < |r| ==> NotFallbackStopWord(r[k]) by {
      forall k | 0 <= k < |r|
        ensures NotFallbackStopWord(r[k])
      {
        FilterFacts(words, NotFallbackStopWord, r[k]);
      }
    }
    r
  }

  /** `extract_keywords_fallback(text, num_keywords)`. */
  function ExtractKeywordsFallback(text: string, numKeywords: int): (r: seq<string>)
    ensures IsBlank(text) ==> r == []
    ensures |r| <= if numKeywords <= 0 then 0 else numKeywords
  {
    if IsBlank(text) then [] else MostCommon(FallbackWords(text), numKeywords)
  }

  /** A word found in `s` is a whole match of the pattern there. */
  lemma FoundWordIsMatch(s: string, w: string)
    requires w in FindLetterWords(s)
    ensures exists p, q :: IsMatch(s, p, q) && s[p..q] == w
  {
    var spans := MatchSpans(s, 0);
    var k :| 0 <= k < |spans| && FindLetterWords(s)[k] == w;
    assert IsMatch(s, spans[k].start, spans[k].end);
  }

  /** A match in lowered text is made of lower-case ASCII letters. */
  lemma LoweredMatchIsLowerCase(text: string, p: int, q: int)
    requires IsMatch(Lower(text), p, q)
    ensures forall k :: 0 <= k < q - p ==> 'a' <= Lower(text)[p..q][k] <= 'z'
  {
    LowerFacts(text);
  }

  /** Every fallback keyword is a whole match of the pattern in the lowered text, made of at least
      three lower-case ASCII letters, and is not a stopword. */
  lemma {:induction false} FallbackKeywordsAreLetterWords(text: string, numKeywords: int, w: string)
    requires w in ExtractKeywordsFallback(text, numKeywords)
    ensures |w| >= 3 && forall k :: 0 <= k < |w| ==> 'a' <= w[k] <= 'z'
    ensures w !in FallbackStopWords
    ensures exists p, q :: IsMatch(Lower(text), p, q) && Lower(text)[p..q] == w
  {
    var words := FindLetterWords(Lower(text));
    assert w in FallbackWords(text) by {
      MostCommonRanked(FallbackWords(text), numKeywords);
    }
    FilterFacts(words, NotFallbackStopWord, w);
    FoundWordIsMatch(Lower(text), w);
    var p, q :| IsMatch(Lower(text), p, q) && Lower(text)[p..q] == w;
    LoweredMatchIsLowerCase(text, p, q);
  }

  /** The fallback ranks exactly the pattern's matches in the lowered text that are not stopwords,
      each counted as often as it matches. */
  lemma {:induction false} FallbackWordCounts(text: string, w: string)
    ensures Count(FallbackWords(text), w)
      == if w in FallbackStopWords then 0 else Count(FindLetterWords(Lower(text)), w)
  {
    FilterFacts(FindLetterWords(Lower(text)), NotFallbackStopWord, w);
  }

  lemma ShortTextLowered()
    ensures Lower("AI is great.") == "ai is great."
  {
    var t := "AI is great.";
    assert LowerChar(t[0]) == 'a' && LowerChar(t[1]) == 'i';
  }

  lemma ShortTextSpans()
    ensures MatchSpans("ai is great.", 0) == [Span(6, 11)]
  {
    var s := "ai is great.";
    assert WordEnd(s, 10) == 11;
    assert WordEnd(s, 6) == 11;
    assert MatchSpans(s, 11) == [];
    assert MatchSpans(s, 6) == [Span(6, 11)];
    assert WordEnd(s, 3) == 5;
    assert MatchSpans(s, 5) == [Span(6, 11)];
    assert MatchSpans(s, 3) == [Span(6, 11)];
    assert WordEnd(s, 0) == 2;
    assert MatchSpans(s, 2) == [Span(6, 11)];
  }

  /** A text with a single match finds the one word that match covers. */
  lemma SingleMatchWord(s: string, p: nat, q: nat)
    requires p <= q <= |s| && MatchSpans(s, 0) == [Span(p, q)]
    ensures FindLetterWords(s) == [s[p..q]]
  {
  }

  /** A text with two matches finds the two words they cover, in order. */
  lemma TwoMatchWords(s: string, p: nat, q: nat, p': nat, q': nat)
    requires p <= q <= p' <= q' <= |s| && MatchSpans(s, 0) == [Span(p, q), Span(p', q')]
    ensures FindLetterWords(s) == [s[p..q], s[p'..q']]
  {
  }

  lemma ShortTextFound()
    ensures FindLetterWords("ai is great.") == ["great"]
  {
    ShortTextSpans();
    SingleMatchWord("ai is great.", 6, 11);
    assert "ai is great."[6..11] == "great";
  }

  /** No fallback stopword starts with a 'g'. */
  lemma NoStopWordStartsWithG(w: string)
    requires |w| > 0 && w[0] == 'g'
    ensures NotFallbackStopWord(w)
  {
    NoFunctionStopWordStartsWithG(w);
    NoPronounStopWordStartsWithG(w);
    NoPossessiveStopWordStartsWithG(w);
  }

  lemma NoFunctionStopWordStartsWithG(w: string)
    requires |w| > 0 && w[0] == 'g'
    ensures w !in FunctionStopWords
  {
  }

  lemma NoPronounStopWordStartsWithG(w: string)
    requires |w| > 0 && w[0] == 'g'
    ensures w !in PronounStopWords
  {
  }

  lemma NoPossessiveStopWordStartsWithG(w: string)
    requires |w| > 0 && w[0] == 'g'
    ensures w !in PossessiveStopWords
  {
  }

  lemma ShortTextWords()
    ensures FallbackWords("AI is great.") == ["great"]
  {
    ShortTextLowered();
    ShortTextFound();
    NoStopWordStartsWithG("great");
    var words: seq<string> := ["great"];
    assert words[..0] == [];
  }

  lemma ShortTextNotBlank()
    ensures !IsBlank("AI is great.")
  {
    NotBlankWhenStartVisible("AI is great.");
  }

  lemma SingleWordRanking()
    ensures MostCommon(["great"], 3) == ["great"]
  {
    var words := ["great"];
    assert words[..0] == [];
    assert Distinct(words) == ["great"];
    assert SortByCount(words, ["great"]) == ["great"];
  }

  /** "AI is great." yields ["great"]: "ai" and "is" are shorter than three letters. */
  lemma FallbackShortText()
    ensures ExtractKeywordsFallback("AI is great.", 3) == ["great"]
  {
    ShortTextNotBlank();
    ShortTextWords();
    SingleWordRanking();
  }

  /** `\b` needs a non-word character: letters followed by digits form one run of word
      characters, which is not all letters, so "abc123" yields nothing. */
  lemma AlnumRunFindsNothing()
    ensures FindLetterWords("abc123") == []
  {
    var s := "abc123";
    assert WordEnd(s, 3) == 6;
    assert WordEnd(s, 0) == 6;
    assert !AllLetters(s, 0, 6) by { assert !IsAsciiLetter(s[3]); }
    assert MatchSpans(s, 6) == [];
    assert MatchSpans(s, 0) == [];
  }

  /** An apostrophe is not a word character: "don't" yields "don", and "t" is too short. */
  lemma ApostropheSplitsWord()
    ensures FindLetterWords("don't") == ["don"]
  {
    var s := "don't";
    assert WordEnd(s, 4) == 5;
    assert MatchSpans(s, 4) == [];
    assert MatchSpans(s, 3) == [];
    assert WordEnd(s, 0) == 3;
    assert AllLetters(s, 0, 3);
    assert MatchSpans(s, 0) == [Span(0, 3)];
    SingleMatchWord(s, 0, 3);
    assert s[0..3] == "don";
  }

  /** A hyphen is not a word character: "well-known" yields "well" and "known". */
  lemma HyphenSplitsWords()
    ensures FindLetterWords("well-known") == ["well", "known"]
  {
    var s := "well-known";
    assert WordEnd(s, 8) == 10;
    assert WordEnd(s, 5) == 10;
    assert AllLetters(s, 5, 10);
    assert MatchSpans(s, 10) == [];
    assert MatchSpans(s, 5) == [Span(5, 10)];
    assert MatchSpans(s, 4) == [Span(5, 10)];
    assert WordEnd(s, 2) == 4;
    assert WordEnd(s, 0) == 4;
    assert AllLetters(s, 0, 4);
    assert MatchSpans(s, 0) == [Span(0, 4), Span(5, 10)];
    TwoMatchWords(s, 0, 4, 5, 10);
    assert s[0..4] == "well" && s[5..10] == "known";
  }

  // ---------------------------------------------------------------------------------------------
  // Primary path

  /** The three NLTK resources; `None` stands for the call raising (a missing resource model, a
      tagging failure). */
  datatype Toolkit = Toolkit(
    /** `word_tokenize` */
    tokenize: string -> Option<seq<string>>,
    /** `stopwords.words('english')` */
    englishStopwords: Option<seq<string>>,
    /** `pos_tag`, giving the tag of each token in turn */
    tag: seq<string> -> Option<seq<string>>)

  /** The punctuation tokens added to the stop set. */
  const PunctuationTokens: set<string> :=
    {".", ",", "!", "?", ";", ":", "-", "(", ")", "[", "]", "{", "}", "\"", "'", "`", "``", "''"}

  /** The function words added to the stop set. */
  const FunctionWords: set<string> :=
    {"the", "a", "an", "and", "or", "but", "in", "on", "at", "to", "for", "of", "with", "by"}

  /** The tags of the four noun classes. */
  const NounTags: set<string> := {"NN", "NNS", "NNP", "NNPS"}

  function PrimaryStopWords(english: seq<string>): set<string>
  {
    (set w | w in english) + PunctuationTokens + FunctionWords
  }

  /** The condition of `[token for token in tokens if token not in stop_words and len(token) > 2]`. */
  function Significant(stop: set<string>): string -> bool
  {
    t => t !in stop && |t| > 2
  }

  /** `[word for word, pos in tagged_tokens if pos in [...]]`, pairing each token with its tag. */
  function Nouns(tokens: seq<string>, tags: seq<string>): (r: seq<string>)
    ensures |r| <= |tokens| && |r| <= |tags|
  {
    if tokens == [] || tags == [] then []
    else (if tags[0] in NounTags then [tokens[0]] else []) + Nouns(tokens[1..], tags[1..])
  }

  /** Every noun kept is a token whose tag is a noun tag. */
  lemma {:induction false} NounsAreTagged(tokens: seq<string>, tags: seq<string>, w: string)
    requires w in Nouns(tokens, tags)
    ensures exists k :: 0 <= k < |tokens| && k < |tags| && tokens[k] == w && tags[k] in NounTags
  {
    if tokens != [] && tags != [] {
      if !(tags[0] in NounTags && w == tokens[0]) {
        NounsAreTagged(tokens[1..], tags[1..], w);
        var k :| 0 <= k < |tokens[1..]| && k < |tags[1..]| && tokens[1..][k] == w && tags[1..][k] in NounTags;
        assert tokens[k + 1] == w && tags[k + 1] in NounTags;
      }
    }
  }

  /** Every token tagged as a noun is kept. */
  lemma {:induction false} NounsComplete(tokens: seq<string>, tags: seq<string>, k: int)
    requires 0 <= k < |tokens| && k < |tags| && tags[k] in NounTags
    ensures tokens[k] in Nouns(tokens, tags)
  {
    if k > 0 {
      NounsComplete(tokens[1..], tags[1..], k - 1);
    }
  }

  /** The positions from `k` on whose tokens are tagged as nouns, in increasing order. */
  function NounIndicesFrom(tokens: seq<string>, tags: seq<string>, k: nat): seq<nat>
    decreases |tokens| - k
  {
    if k >= |tokens| || k >= |tags| then []
    else (if tags[k] in NounTags then [k] else []) + NounIndicesFrom(tokens, tags, k + 1)
  }

  /** `NounIndicesFrom` lists, in strictly increasing order, exactly the positions from `k` on
      that are tagged as nouns. */
  lemma {:induction false} NounIndicesExact(tokens: seq<string>, tags: seq<string>, k: nat)
    ensures forall i :: 0 <= i < |NounIndicesFrom(tokens, tags, k)| ==>
      var p := NounIndicesFrom(tokens, tags, k)[i];
      k <= p < |tokens| && p < |tags| && tags[p] in NounTags
    ensures forall i, j :: 0 <= i < j < |NounIndicesFrom(tokens, tags, k)| ==>
      NounIndicesFrom(tokens, tags, k)[i] < NounIndicesFrom(tokens, tags, k)[j]
    ensures forall p :: k <= p < |tokens| && p < |tags| && tags[p] in NounTags ==> p in NounIndicesFrom(tokens, tags, k)
    decreases |tokens| - k
  {
    if k < |tokens| && k < |tags| {
      var head := if tags[k] in NounTags then [k] else [];
      var later := NounIndicesFrom(tokens, tags, k + 1);
      NounIndicesExact(tokens, tags, k + 1);
      assert NounIndicesFrom(tokens, tags, k) == head + later;
      forall i | 0 <= i < |head + later|
        ensures k <= (head + later)[i] < |tokens| && (head + later)[i] < |tags|
        ensures tags[(head + later)[i]] in NounTags
      {
        if i < |head| {
          assert (head + later)[i] == k && tags[k] in NounTags;
        } else {
          var j := i - |head|;
          assert 0 <= j < |later| && (head + later)[i] == later[j];
          assert k + 1 <= later[j] < |tokens| && later[j] < |tags| && tags[later[j]] in NounTags;
        }
      }
      forall p | k <= p < |tokens| && p < |tags| && tags[p] in NounTags
        ensures p in head + later
      {
        if p == k { assert (head + later)[0] == k; } else { assert p in later; }
      }
    }
  }

  /** The nouns of the tokens from `k` on are the tokens at `NounIndicesFrom`, in that order. */
  lemma {:induction false} NounsAtIndices(tokens: seq<string>, tags: seq<string>, k: nat)
    requires k <= |tokens| && k <= |tags|
    ensures var pos, nouns := NounIndicesFrom(tokens, tags, k), Nouns(tokens[k..], tags[k..]);
      && |pos| == |nouns|
      && forall i :: 0 <= i < |pos| ==> pos[i] < |tokens| && nouns[i] == tokens[pos[i]]
    decreases |tokens| - k
  {
    if k < |tokens| && k < |tags| {
      NounsAtIndices(tokens, tags, k + 1);
      NounIndicesExact(tokens, tags, k + 1);
      assert tokens[k..][1..] == tokens[k + 1..] && tags[k..][1..] == tags[k + 1..];
    }
  }

  /** The nouns keep the order of the tokens: the i-th noun is the token at the i-th of a strictly
      increasing list of positions, each tagged as a noun. */
  lemma NounsInOrder(tokens: seq<string>, tags: seq<string>)
    ensures |NounIndicesFrom(tokens, tags, 0)| == |Nouns(tokens, tags)|
    ensures forall i :: 0 <= i < |Nouns(tokens, tags)| ==>
      var p := NounIndicesFrom(tokens, tags, 0)[i];
      p < |tokens| && p < |tags| && tags[p] in NounTags && Nouns(tokens, tags)[i] == tokens[p]
    ensures forall i, j :: 0 <= i < j < |Nouns(tokens, tags)| ==>
      NounIndicesFrom(tokens, tags, 0)[i] < NounIndicesFrom(tokens, tags, 0)[j]
  {
    NounIndicesExact(tokens, tags, 0);
    NounsAtIndices(tokens, tags, 0);
    assert tokens[0..] == tokens && tags[0..] == tags;
  }

  /** The positions at which `w` is a token tagged as a noun. */
  function NounPositions(tokens: seq<string>, tags: seq<string>, w: string): set<int>
  {
    set k | 0 <= k < |tokens| && k < |tags| && tokens[k] == w && tags[k] in NounTags
  }

  /** Shifting a set of positions by one keeps its size. */
  lemma {:induction false} ShiftedSize(s: set<int>)
    ensures |set k | k in s :: k + 1| == |s|
    decreases |s|
  {
    if s != {} {
      assert exists x :: x in s by {
        if forall x :: x !in s {
          assert false;
        }
      }
      var x :| x in s;
      var rest := s - {x};
      ShiftedSize(rest);
      var shifted, shiftedRest := set k | k in s :: k + 1, set k | k in rest :: k + 1;
      forall y | y in shifted
        ensures y in shiftedRest + {x + 1}
      {
        var z := y - 1;
        assert z in s;
        if z != x {
          assert z in rest && y == z + 1;
        }
      }
      assert shifted == shiftedRest + {x + 1};
      assert x + 1 !in shiftedRest;
    }
  }

  /** The positions in `tokens` are position 0, when it qualifies, and the positions in
      `tokens[1..]`, each moved up by one. */
  lemma NounPositionsSplit(tokens: seq<string>, tags: seq<string>, w: string)
    requires tokens != [] && tags != []
    ensures var later := NounPositions(tokens[1..], tags[1..], w);
      var here: set<int> := if tags[0] in NounTags && tokens[0] == w then {0} else {};
      && NounPositions(tokens, tags, w) == here + (set k | k in later :: k + 1)
      && 0 !in (set k | k in later :: k + 1)
  {
    var later := NounPositions(tokens[1..], tags[1..], w);
    var shifted := set k | k in later :: k + 1;
    forall k | k in NounPositions(tokens, tags, w) && k != 0
      ensures k in shifted
    {
      assert k - 1 in later;
    }
  }

  /** The comprehension keeps a word as often as the tagger tagged it as a noun. */
  lemma {:induction false} NounsCount(tokens: seq<string>, tags: seq<string>, w: string)
    ensures Count(Nouns(tokens, tags), w) == |NounPositions(tokens, tags, w)|
  {
    if tokens == [] || tags == [] {
      assert NounPositions(tokens, tags, w) == {};
    } else {
      NounsCount(tokens[1..], tags[1..], w);
      ShiftedSize(NounPositions(tokens[1..], tags[1..], w));
      NounPositionsSplit(tokens, tags, w);
      var head := if tags[0] in NounTags then [tokens[0]] else [];
      assert multiset(Nouns(tokens, tags)) == multiset(head) + multiset(Nouns(tokens[1..], tags[1..]));
    }
  }

  /** The nouns of the primary path: the lowered text's tokens that are outside the stop set and
      longer than two characters, kept when tagged as a noun; `None` when a step raises. */
  function PrimaryNouns(kit: Toolkit, text: string): (r: Option<seq<string>>)
    ensures r.None? <==>
      || kit.tokenize(Lower(text)).None?
      || kit.englishStopwords.None?
      || kit.tag(Filter(kit.tokenize(Lower(text)).value, Significant(PrimaryStopWords(kit.englishStopwords.value)))).None?
    ensures r.Some? ==> forall w :: w in r.value ==>
      && w in kit.tokenize(Lower(text)).value
      && |w| > 2
      && w !in PrimaryStopWords(kit.englishStopwords.value)
  {
    match kit.tokenize(Lower(text))
    case None => None
    case Some(tokens) =>
      match kit.englishStopwords
      case None => None
      case Some(english) =>
        var significant := Filter(tokens, Significant(PrimaryStopWords(english)));
        match kit.tag(significant)
        case None => None
        case Some(tags) =>
          var nouns := Nouns(significant, tags);
          assert forall w :: w in nouns ==> w in tokens && Significant(PrimaryStopWords(english))(w) by {
            forall w | w in nouns
              ensures w in tokens && Significant(PrimaryStopWords(english))(w)
            {
              NounsAreTagged(significant, tags, w);
              FilterFacts(tokens, Significant(PrimaryStopWords(english)), w);
            }
          }
          Some(nouns)
  }

  /** The primary path of `extract_keywords` (the body of its `try`); `None` when it raises. */
  function PrimaryKeywords(kit: Toolkit, text: string, numKeywords: int): (r: Option<seq<string>>)
    ensures r.Some? <==> PrimaryNouns(kit, text).Some?
    ensures r.Some? ==> |r.value| <= if numKeywords <= 0 then 0 else numKeywords
    ensures r.Some? ==> forall w :: w in r.value ==> w in PrimaryNouns(kit, text).value
  {
    match PrimaryNouns(kit, text)
    case None => None
    case Some(nouns) =>
      MostCommonRanked(nouns, numKeywords);
      Some(MostCommon(nouns, numKeywords))
  }

  /** The primary path counts each noun as often as the tagger tagged it as a noun among the
      significant tokens, and keeps every such token. */
  lemma PrimaryNounCounts(kit: Toolkit, text: string, w: string)
    requires PrimaryNouns(kit, text).Some?
    ensures var tokens, english := kit.tokenize(Lower(text)).value, kit.englishStopwords.value;
      var significant := Filter(tokens, Significant(PrimaryStopWords(english)));
      var tags := kit.tag(significant).value;
      && Count(PrimaryNouns(kit, text).value, w) == |NounPositions(significant, tags, w)|
      && forall k :: 0 <= k < |significant| && k < |tags| && tags[k] in NounTags
           ==> significant[k] in PrimaryNouns(kit, text).value
  {
    var tokens, english := kit.tokenize(Lower(text)).value, kit.englishStopwords.value;
    var significant := Filter(tokens, Significant(PrimaryStopWords(english)));
    var tags := kit.tag(significant).value;
    NounsCount(significant, tags, w);
    forall k | 0 <= k < |significant| && k < |tags| && tags[k] in NounTags
      ensures significant[k] in Nouns(significant, tags)
    {
      NounsComplete(significant, tags, k);
    }
  }

  /** The fallback's keywords are ranked: no duplicates, counts never increase and equal counts
      keep first-occurrence order. */
  lemma FallbackRanked(text: string, numKeywords: int)
    ensures Ranked(FallbackWords(text), ExtractKeywordsFallback(text, numKeywords))
  {
    if !IsBlank(text) {
      MostCommonRanked(FallbackWords(text), numKeywords);
    }
  }

  /** The primary path's keywords are ranked over the nouns in the same way. */
  lemma PrimaryRanked(kit: Toolkit, text: string, numKeywords: int)
    requires PrimaryKeywords(kit, text, numKeywords).Some?
    ensures Ranked(PrimaryNouns(kit, text).value, PrimaryKeywords(kit, text, numKeywords).value)
  {
    MostCommonRanked(PrimaryNouns(kit, text).value, numKeywords);
  }

  /** `extract_keywords(text, num_keywords)`; `nltk` is `None` when NLTK could not be imported. */
  function ExtractKeywords(nltk: Option<Toolkit>, text: string, numKeywords: int): (r: seq<string>)
    ensures IsBlank(text) ==> r == []
    ensures |r| <= if numKeywords <= 0 then 0 else numKeywords
    ensures !IsBlank(text) && (nltk.None? || PrimaryKeywords(nltk.value, text, numKeywords).None?)
      ==> r == ExtractKeywordsFallback(text, numKeywords)
    ensures !IsBlank(text) && nltk.Some? && PrimaryKeywords(nltk.value, text, numKeywords).Some?
      ==> r == PrimaryKeywords(nltk.value, text, numKeywords).value
  {
    if IsBlank(text) then []
    else match nltk
      case None => ExtractKeywordsFallback(text, numKeywords)
      case Some(kit) =>
        match PrimaryKeywords(kit, text, numKeywords)
        case Some(keywords) => keywords
        case None => ExtractKeywordsFallback(text, numKeywords)
  }

  /** Every keyword of the primary path is a token of the lowered text longer than two characters,
      outside the English stopwords, the punctuation tokens and the function words, that the
      tagger tagged as a noun. */
  lemma {:induction false} PrimaryKeywordsAreNouns(kit: Toolkit, text: string, numKeywords: int, w: string)
    requires PrimaryKeywords(kit, text, numKeywords).Some?
    requires w in PrimaryKeywords(kit, text, numKeywords).value
    ensures var tokens, english := kit.tokenize(Lower(text)).value, kit.englishStopwords.value;
      && w in tokens
      && |w| > 2
      && w !in english && w !in PunctuationTokens && w !in FunctionWords
    ensures var tokens, english := kit.tokenize(Lower(text)).value, kit.englishStopwords.value;
      var significant := Filter(tokens, Significant(PrimaryStopWords(english)));
      var tags := kit.tag(significant).value;
      exists k :: 0 <= k < |significant| && k < |tags| && significant[k] == w && tags[k] in NounTags
  {
    var tokens, english := kit.tokenize(Lower(text)).value, kit.englishStopwords.value;
    var stop := PrimaryStopWords(english);
    var significant := Filter(tokens, Significant(stop));
    var tags := kit.tag(significant).value;
    var nouns := Nouns(significant, tags);
    assert PrimaryNouns(kit, text) == Some(nouns);
    MostCommonRanked(nouns, numKeywords);
    assert w in nouns;
    NounsAreTagged(significant, tags, w);
    var k :| 0 <= k < |significant| && k < |tags| && significant[k] == w && tags[k] in NounTags;
    FilterFacts(tokens, Significant(stop), w);
  }
}

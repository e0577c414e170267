# Jouster knowledge extractor, modelled in Dafny

This project models the core of the Jouster LLM knowledge extractor.

- **Keyword extraction** (`keyword_extractor.py`):
  - the NLTK noun path and its regular-expression fallback;
  - the `Counter.most_common` ranking both paths share.
- **LLM service** (`llm_service.py`):
  - `analyze_text`, which asks a chat-completion model for a JSON record;
  - `_validate_result`, which repairs that record in place;
  - the degraded record used when the reply is not JSON.
- **Supabase service** (`supabase_service.py`):
  - reading the connection settings, including quote stripping;
  - the topic search over the stored analyses.
- **`POST /analyze` endpoint** (`main.py`):
  - the request guards;
  - the record built for storage;
  - the sentiment check before the record is stored.

The modules follow the program's structure:

| file | module | models |
|---|---|---|
| `outcomes.dfy` | `Outcomes` | `Option`, the exceptions the code raises, and `Result` |
| `text.dfy` | `Text` | `str.strip`, `str.lower`, `in` on strings, and `not s.strip()` |
| `seqs.dfy` | `Seqs` | list comprehensions with a condition, and subsequences |
| `ranking.dfy` | `Ranking` | `Counter(words).most_common(n)` |
| `keyword_extractor.dfy` | `KeywordExtractor` | `extract_keywords_fallback`, `extract_keywords` |
| `json_values.dfy` | `JsonValues` | decoded JSON, Python truthiness, `dict.get`, `or` |
| `llm_service.dfy` | `LlmService` | `LLMService` |
| `supabase_service.dfy` | `Supabase` | `SupabaseService` |
| `main_endpoint.dfy` | `Api` | `analyze_text` of main.py |

## Modelling choices

- **Pure code becomes functions.** The keyword extractor is written as functions and lemmas.
- **Word matching.** The pattern `\b[a-zA-Z]{3,}\b` is written as a predicate, `IsMatch`. A scanner, `MatchSpans`, is proved to list exactly the matches, in order.
- **Ranking.** `most_common(n)` is `heapq.nlargest`, a stable sort by count cut to `n` entries. It is modelled as follows:
  - take the tally's keys in first-occurrence order (`Distinct`);
  - insertion-sort them by count;
  - take the first `n`.
- **The repaired dict.** `_validate_result` changes the dict it is given and returns that same dict. It is a module-level method, `ValidateResult`, that takes a `JsonDict` object and updates that object's `entries` field in place. Its result is proved equal to a pure specification, `Validated`, and the properties are proved about `Validated`.
- **The search loop.** `search_analyses` is a method with a `while` loop. It is proved equal to the pure specification `Searched`.
- **The endpoint.** The `/analyze` handler is a method that updates the `analysis_data` map in place.
- **External services are parameters.**
  - The NLTK calls are fields of a `Toolkit` value. `None` stands for a call that raises, and a missing `Toolkit` for `NLTK_AVAILABLE` being false.
  - The chat-completion call and `json.loads` are fields of an `LlmClient` value.
  - The database answer is a `Fetch` value.
  - The availability of the Supabase service is a boolean.
- **Whitespace.** `str.strip()` removes Python's full `isspace()` set (`Whitespace`), not only ASCII blanks.

### Behaviour of the code worth knowing

- **`_validate_result` can raise.** At llm_service.py:78, a truthy `summary` that is not a string makes `.strip()` raise `AttributeError`. Inside `analyze_text` this becomes an "LLM API error" (`Validated`, `AnalyzeTextSucceedsIff`).
- **An absent title stays absent.** llm_service.py:81-82 only replaces a title that is present, so validating `{}` gives a record without a `title` key (`ValidatedEmpty`).
- **The degraded summary can be empty.** At llm_service.py:54 and 67, a reply that is empty after stripping gives an empty summary (`AnalyzeTextSummary`). The `or` at main.py:91 replaces it, so every stored summary is non-blank (`Api.StoredRecordValid`).
- **The fallback stop set has a duplicate.** The set literal at keyword_extractor.py:63-69 lists 63 words, with "her" twice.

## Model

| member | source | states |
|---|---|---|
| Text.TrimInfix | llm_service.py:94 | `strip` removes only the given characters, all the leading and trailing ones, and keeps the infix in between |
| Text.TrimIdempotent | supabase_service.py:19-20 | stripping twice is stripping once |
| Text.TrimUntouched | llm_service.py:94 | a string without stripped characters at its edges is unchanged |
| Text.StripEmptyIffBlank | keyword_extractor.py:59 | `not text.strip()` holds exactly when every character is whitespace |
| Text.LowerFacts | keyword_extractor.py:71 | lowering keeps the length, turns each upper-case ASCII letter into its lower-case partner, leaves no upper-case letter, changes nothing else and is idempotent |
| Seqs.Filter | keyword_extractor.py:73 | a comprehension with a condition yields a subsequence of its input |
| Seqs.FilterFacts | keyword_extractor.py:73 | the comprehension keeps exactly the elements that pass, each as often as before |
| Ranking.FirstIndexIsFirst | keyword_extractor.py:74 | the tally's order is the position of each word's first occurrence |
| Ranking.Distinct | keyword_extractor.py:74 | the tally's keys are the words, each once, in first-occurrence order |
| Ranking.SortByCount | keyword_extractor.py:76 | the stable sort by count is a permutation of the keys |
| Ranking.MostCommon | keyword_extractor.py:76 | `most_common(n)` lists at most `n` words, and none when `n <= 0` |
| Ranking.SortedTally | keyword_extractor.py:74-76 | the sorted tally holds exactly the words, each ranked before the ones it outranks |
| Ranking.MostCommonRanked | keyword_extractor.py:74-76 | the listed words come from the input and have no duplicates; counts do not increase and equal counts keep first-occurrence order; every word left out is outranked by every word listed; all words are listed when fewer than `n` are |
| KeywordExtractor.MatchSpans | keyword_extractor.py:71 | the scanner yields matches of `\b[a-zA-Z]{3,}\b` only, ascending and disjoint |
| KeywordExtractor.FindLetterWords | keyword_extractor.py:71 | every word `re.findall` returns is at least three ASCII letters long and made only of them |
| KeywordExtractor.MatchSpansComplete | keyword_extractor.py:71 | every match of the pattern is yielded |
| KeywordExtractor.FindLetterWordsExact | keyword_extractor.py:71 | `re.findall` gives exactly the pattern's matches, in order of position |
| KeywordExtractor.FallbackWords | keyword_extractor.py:71-73 | the words ranked are some of the pattern's matches in the lowered text, in order, and none of them is a stopword |
| KeywordExtractor.ExtractKeywordsFallback | keyword_extractor.py:54-76 | blank text gives `[]`; at most `num_keywords` words, none when it is not positive |
| KeywordExtractor.FallbackRanked | keyword_extractor.py:74-76 | the fallback keywords are ranked over the words counted: no duplicates, counts never increase, ties keep first-occurrence order |
| KeywordExtractor.FallbackKeywordsAreLetterWords | keyword_extractor.py:63-76 | each fallback keyword is a whole match in the lowered text, of three or more lower-case ASCII letters, and not a stopword |
| KeywordExtractor.FallbackWordCounts | keyword_extractor.py:71-74 | the fallback counts a word as often as it matches, or not at all when it is a stopword |
| KeywordExtractor.FallbackShortText | keyword_extractor.py:71-76 | "AI is great." yields `["great"]` |
| KeywordExtractor.AlnumRunFindsNothing | keyword_extractor.py:71 | `\b` needs a non-word character, so "abc123" yields no word |
| KeywordExtractor.ApostropheSplitsWord | keyword_extractor.py:71 | an apostrophe ends a word: "don't" yields `["don"]`, and "t" is too short |
| KeywordExtractor.HyphenSplitsWords | keyword_extractor.py:71 | a hyphen ends a word: "well-known" yields `["well", "known"]` |
| KeywordExtractor.Nouns | keyword_extractor.py:101 | the comprehension over the tagged tokens keeps at most one word per token and tag |
| KeywordExtractor.NounsAreTagged | keyword_extractor.py:99-101 | every noun kept is a token whose tag is one of the four noun tags |
| KeywordExtractor.NounsComplete | keyword_extractor.py:99-101 | every token tagged as a noun is kept |
| KeywordExtractor.NounsCount | keyword_extractor.py:99-101 | a word is kept exactly as often as it is a token tagged as a noun |
| KeywordExtractor.NounIndicesExact | keyword_extractor.py:99-101 | the positions listed are, in strictly increasing order, exactly the positions whose tag is a noun tag |
| KeywordExtractor.NounsAtIndices | keyword_extractor.py:99-101 | the nouns of the tokens from a position on are the tokens at the listed positions, one for one |
| KeywordExtractor.NounsInOrder | keyword_extractor.py:99-101 | the nouns keep the tokens' order: the i-th noun is the token at the i-th of strictly increasing positions, each tagged as a noun |
| KeywordExtractor.PrimaryNouns | keyword_extractor.py:89-101 | the step raises exactly when the tokenizer, the stopword corpus or the tagger raises; every noun is a token of the lowered text, longer than two characters and outside the stop set of English stopwords, punctuation tokens and function words |
| KeywordExtractor.PrimaryNounCounts | keyword_extractor.py:97-103 | the primary path counts each word as often as the tagger tagged it as a noun among the significant tokens, and keeps every noun-tagged token |
| KeywordExtractor.PrimaryKeywords | keyword_extractor.py:89-106 | the primary path raises exactly when one of its steps raises; otherwise it lists at most `num_keywords` words, each one of the nouns |
| KeywordExtractor.PrimaryRanked | keyword_extractor.py:103-104 | the primary keywords are ranked over the nouns: no duplicates, counts never increase, ties keep first-occurrence order |
| KeywordExtractor.ExtractKeywords | keyword_extractor.py:78-110 | blank text gives `[]`; at most `num_keywords` words; when the primary path succeeds its keywords are the result; without NLTK, or when the primary path raises, the result is the fallback's |
| KeywordExtractor.PrimaryKeywordsAreNouns | keyword_extractor.py:89-104 | each primary keyword is a token of the lowered text, longer than two characters, outside the English stopwords, the punctuation tokens and the function words, and tagged as a noun |
| LlmService.NormalSentiment | llm_service.py:87-98 | the stored sentiment is always one of the three valid ones |
| LlmService.NormalSentimentFacts | llm_service.py:87-98 | a valid sentiment is kept; a string is lowered and stripped before the check; a string still invalid after that, and any value that is not a string, becomes "neutral"; normalising is idempotent |
| LlmService.SentimentExample | llm_service.py:94 | " Positive\n" becomes "positive" |
| LlmService.FixSummary | llm_service.py:78-79 | a falsy or blank summary becomes "No summary available"; a non-blank string summary is kept, not stripped |
| LlmService.FixTitle | llm_service.py:81-82 | a present title that is neither `None` nor a string becomes `None`; other titles, and an absent one, are left alone |
| LlmService.FixTopics | llm_service.py:84-85 | topics that are not a list of at least three become the default triple; such a list is kept whatever its elements |
| LlmService.FixSentiment | llm_service.py:87-98 | the sentiment is always set, to the normalised value |
| LlmService.Validated | llm_service.py:76-100 | the repair raises exactly when the summary is truthy and not a string; otherwise the record conforms; the three repaired fields are always present; keys other than the four fields keep their values |
| LlmService.ValidatedFields | llm_service.py:78-98 | field by field: valid values are kept, invalid ones get their defaults, and the sentiment is normalised |
| LlmService.ConformingIsFixpoint | llm_service.py:76-100 | a record that already conforms is returned unchanged |
| LlmService.ValidatedIdempotent | llm_service.py:76-100 | validating twice is validating once |
| LlmService.ValidatedEmpty | llm_service.py:76-100 | `{}` gets the default summary, topics and sentiment, and no title |
| LlmService.ValidatedDefaults | llm_service.py:78-98 | an empty summary, two topics and "VERY POSITIVE" are all replaced by their defaults |
| LlmService.ValidatedRepairs | llm_service.py:78-98 | a numeric title becomes `None`, three topics are kept, and "Positive" becomes "positive" |
| LlmService.ValidateResult | llm_service.py:76-100 | the in-place repair returns the same dict, with the entries `Validated` gives, and leaves it unchanged when it raises |
| LlmService.Truncated | llm_service.py:67 | the degraded summary is the content when it is at most 200 characters, otherwise its first 200 followed by "..." |
| LlmService.Degraded | llm_service.py:64-71 | the degraded record has exactly the four fields: the truncated content as summary, title `None`, the default topics, sentiment "neutral" |
| LlmService.DegradedSummaryBlankIff | llm_service.py:54-67 | the degraded summary of stripped content is blank exactly when the content is empty |
| LlmService.Connect | llm_service.py:9-13 | the service exists exactly when an API key is set and not empty; otherwise `ValueError` is raised |
| LlmService.AnalyzeText | llm_service.py:15-74 | blank text raises "Text cannot be empty" whatever the client does; any other failure is an "LLM API error", including a failed call; content that does not decode gives the degraded record of the stripped content; a decoded object whose summary does not raise gives its validated form; every record returned has the promised shape |
| LlmService.AnalyzeTextSucceedsIff | llm_service.py:43-74 | for non-blank text, the analysis succeeds exactly when the client replies and the stripped reply either fails to decode or decodes to an object whose summary does not raise |
| LlmService.AnalyzeTextSummary | llm_service.py:54-71 | every returned summary is non-blank, except the empty one of a degraded record made from an empty reply |
| Supabase.StripQuotes | supabase_service.py:19-20 | stripping quotes never lengthens a setting |
| Supabase.StripQuotesFacts | supabase_service.py:18-20 | all leading and trailing quotes are removed and nothing in between; stripping again changes nothing |
| Supabase.StripQuotesExample | supabase_service.py:19 | a double-quoted URL loses its quotes |
| Supabase.SupabaseService.constructor | supabase_service.py:12-13 | the service holds the settings it was given |
| Supabase.SupabaseService.StripSettingQuotes | supabase_service.py:18-20 | both settings are replaced in place by their quote-stripped values |
| Supabase.Connect | supabase_service.py:10-20 | a missing or empty URL or key raises the `ValueError`; otherwise the new service holds both settings stripped of quotes |
| Supabase.AnyElementContains | supabase_service.py:64 | iterating over a value that is not a list, string or object raises `TypeError`; otherwise `any(...)` is true exactly when the lowered topic occurs in the lowered `str` of an element |
| Supabase.RowMatches | supabase_service.py:61-84 | the test raises only on a row with a wrongly typed field, with `TypeError` or `AttributeError`; topics that cannot be iterated over always raise `TypeError` |
| Supabase.RowMatchesIff | supabase_service.py:61-84 | on a row that cannot raise, the row is kept exactly when the lowered topic occurs in a topic, a keyword, the summary or the original text, each lowered; missing fields count as empty |
| Supabase.RowMatchesRaises | supabase_service.py:75-82 | the test raises `AttributeError` on a present non-string summary when no topic or keyword matched, and on a present non-string original text when no topic, keyword or summary matched |
| Supabase.MatchingRows | supabase_service.py:58-86 | the rows kept form a subsequence of the rows fetched |
| Supabase.MatchingRowsIsFilter | supabase_service.py:58-86 | the loop succeeds exactly when no row's test raises, and then equals the list comprehension over the rows |
| Supabase.Searched | supabase_service.py:48-89 | no data gives `[]`; any failure is "Failed to search analyses"; the rows found are some of the rows fetched, in order |
| Supabase.SearchedFacts | supabase_service.py:48-89 | the search succeeds exactly when no row's test raises; the result is the matching rows in fetched order, each as often as fetched |
| Supabase.SearchAnalyses | supabase_service.py:48-89 | the loop computes `Searched` |
| JsonValues.Or | main.py:91-95 | `a or b` is `a` when `a` is truthy and `b` otherwise, so it is truthy when `b` is |
| Api.AnalysisData | main.py:89-96 | the record holds the request text and the LLM title unchanged; summary, topics, sentiment and keywords are always truthy; a truthy LLM value, and a non-empty keyword list, is passed through as-is; a falsy one becomes "No summary available", `["general", "text", "analysis"]`, "neutral" or `["text", "analysis", "content"]` |
| Api.CheckedSentiment | main.py:98-102 | a valid sentiment is kept; anything else becomes "neutral" |
| Api.CheckedSentimentExample | main.py:99-102 | this layer does not lower-case, so "Positive" becomes "neutral" |
| Api.AnalyzeEndpoint | main.py:59-127 | checks run in order: blank text gives 400, then a missing Supabase service or LLM service gives 503, before any service call; an analysis failure gives 503 "Analysis failed: …"; otherwise the stored record is the built record after the sentiment check, is valid, keeps the LLM's sentiment and holds the extracted keywords or the default three |
| Api.StoredRecordValid | main.py:89-102 | after a successful analysis, the sentiment check changes nothing; the stored record has a non-blank summary, an optional string title, at least three topics, a valid sentiment and one to three keywords |

## Left out

- Loading NLTK is not modelled. This covers the resource downloads, the SSL context change and the import test (keyword_extractor.py:1-52). The `Toolkit` value stands for their outcome.
- The tokenizer, the English stopword corpus and the POS tagger are not modelled. They are opaque fields of `Toolkit`.
- The printed warnings are not modelled.
- `str.lower()` and the regex word class `\b` are ASCII-only here. Python also lowers and counts non-ASCII letters as word characters.
- Supabase.Connect: a setting made only of quotes passes the emptiness check at supabase_service.py:14-15, because it is checked before the quotes are stripped. It is then stored as the empty string and handed to `create_client` (supabase_service.py:21). What `create_client` does with an empty URL or key is not modelled.
- `Toolkit.tag` may return a tag list of another length than its tokens, although `pos_tag` gives one tag per token. `Nouns` then pairs tokens and tags position by position up to the shorter list, as `zip` would.
- The OpenAI client is not modelled. This covers the prompt text, the model parameters and the `choices[0].message.content` access. `LlmClient.reply` gives the reply content for a text, or `None` when the call raises.
- `LlmClient.reply` is a function of the text, while the real call samples at temperature 0.3 and can answer the same text differently. No property here compares two calls.
- `json.loads` is not modelled. `LlmClient.parse` stands in for it.
- Several JSON details are not modelled:
  - the distinction between integers and floats;
  - NaN and Infinity, which are truthy;
  - duplicate keys;
  - the key order of objects.
- Exception messages keep only their fixed text. The `": {str(e)}"` suffixes of "LLM API error", "Failed to search analyses" and "Analysis failed" are not modelled. Neither are the runtime messages of `AttributeError` and `TypeError`, which `Api.Message` gives as empty.
- `str()` of numbers, lists and objects in the search is the `render` parameter, not Python's `repr` rules.
- `LLMService.is_available`, `SupabaseService.is_available` and `/health` are not modelled, because they only call the network.
- These database calls are not modelled: `create_client`, `create_analysis`, `get_analysis`, `get_all_analyses` and `delete_analysis`. `AnalyzeEndpoint` stops at the record it hands to `create_analysis`.
- The endpoint's response is not modelled. This covers the `AnalysisResponse` construction and the `created_at` parsing (main.py:105-115), and the pydantic checks on the stored row.
- The process-wide caching of `get_supabase_service` (supabase_service.py:108-115) is not modelled. Nor is main.py's start-up code (lines 1-41), beyond the `supabaseReady` flag and the optional `LlmClient`.
- The search endpoint and the other routes of main.py (lines 43-57, 129 onwards) are not modelled.
- Concurrency is not modelled. The async handlers are modelled as sequential code.

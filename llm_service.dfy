/** `LLMService` of llm_service.py: the text analysis built on a chat-completion client, the
    validation that repairs the parsed reply, and the degraded record used when the reply is not
    JSON. */
module LlmService {
  import opened Outcomes
  import opened Text
  import opened JsonValues

  const DefaultSummary: string := "No summary available"
  const DefaultTopics: seq<string> := ["general", "text", "analysis"]
  const ValidSentiments: seq<string> := ["positive", "neutral", "negative"]
  const EmptyTextMessage: string := "Text cannot be empty"
  const ApiErrorMessage: string := "LLM API error"
  const MissingKeyMessage: string := "OPENAI_API_KEY environment variable is required"

  /** Replies longer than this are cut in the degraded record. */
  const SummaryLimit: nat := 200
  const Ellipsis: string := "..."

  /** The four fields the service promises. */
  const Fields: set<string> := {"summary", "title", "topics", "sentiment"}

  predicate SummaryValid(v: Json)
  {
    v.JString? && !IsBlank(v.s)
  }

  /** An absent title, a `None` title and a string title are all acceptable. */
  predicate TitleValid(d: Dict)
  {
    "title" in d ==> d["title"].JNull? || d["title"].JString?
  }

  predicate TopicsValid(v: Json)
  {
    v.JArray? && |v.items| >= 3
  }

  predicate SentimentValid(v: Json)
  {
    v.JString? && v.s in ValidSentiments
  }

  /** The shape of every record `analyze_text` returns: a string summary, an optional string
      title, at least three topics and one of the three sentiments. */
  predicate Shaped(d: Dict)
  {
    && "summary" in d && d["summary"].JString?
    && TitleValid(d)
    && "topics" in d && TopicsValid(d["topics"])
    && "sentiment" in d && SentimentValid(d["sentiment"])
  }

  /** The shape `_validate_result` establishes: `Shaped`, with a summary that is not blank. */
  predicate Conforms(d: Dict)
  {
    Shaped(d) && SummaryValid(d["summary"])
  }

  /** `.strip()` is called on a truthy summary, which raises unless the summary is a string. */
  predicate SummaryRaises(m: Dict)
  {
    Truthy(Get(m, "summary")) && !Get(m, "summary").JString?
  }

  /** The sentiment `_validate_result` stores for the value `v` it found. */
  function NormalSentiment(v: Json): (r: string)
    ensures r in ValidSentiments
  {
    if v.JString? && Strip(Lower(v.s)) in ValidSentiments then Strip(Lower(v.s)) else "neutral"
  }

  lemma DefaultSummaryValid()
    ensures SummaryValid(JString(DefaultSummary))
  {
    NotBlankWhenStartVisible(DefaultSummary);
  }

  /** The three valid sentiments are lower-case and carry no surrounding whitespace. */
  lemma ValidSentimentIsNormal(s: string)
    requires s in ValidSentiments
    ensures Strip(Lower(s)) == s
  {
    LowerFacts(s);
    assert Lower(s) == s;
    TrimUntouched(s, Whitespace);
  }

  /** A valid sentiment is kept; a string is lowered and stripped before it is checked; every
      other value becomes "neutral". */
  lemma NormalSentimentFacts(v: Json)
    ensures v.JString? && v.s in ValidSentiments ==> NormalSentiment(v) == v.s
    ensures v.JString? && Strip(Lower(v.s)) in ValidSentiments ==> NormalSentiment(v) == Strip(Lower(v.s))
    ensures !v.JString? ==> NormalSentiment(v) == "neutral"
    ensures v.JString? && Strip(Lower(v.s)) !in ValidSentiments ==> NormalSentiment(v) == "neutral"
    ensures NormalSentiment(JString(NormalSentiment(v))) == NormalSentiment(v)
  {
    if v.JString? && v.s in ValidSentiments {
      ValidSentimentIsNormal(v.s);
    }
    ValidSentimentIsNormal(NormalSentiment(v));
  }

  /** Lines 78-79: a falsy or blank summary becomes the default one. */
  function FixSummary(m: Dict): (r: Dict)
    requires !SummaryRaises(m)
    ensures "summary" in r && SummaryValid(r["summary"])
    ensures SummaryValid(Get(m, "summary")) ==> r == m
    ensures !SummaryValid(Get(m, "summary")) ==> r["summary"] == JString(DefaultSummary)
    ensures forall k :: k in r <==> k in m || k == "summary"
    ensures forall k :: k in m && k != "summary" ==> r[k] == m[k]
  {
    DefaultSummaryValid();
    if SummaryValid(Get(m, "summary")) then m else m["summary" := JString(DefaultSummary)]
  }

  /** Lines 81-82: a title that is neither `None` nor a string becomes `None`. */
  function FixTitle(m: Dict): (r: Dict)
    ensures TitleValid(r)
    ensures TitleValid(m) ==> r == m
    ensures !TitleValid(m) ==> "title" in r && r["title"] == JNull
    ensures forall k :: k in r <==> k in m
    ensures forall k :: k in m && k != "title" ==> r[k] == m[k]
  {
    var title := Get(m, "title");
    if title != JNull && !title.JString? then m["title" := JNull] else m
  }

  /** Lines 84-85: topics that are not a list of at least three become the default ones. */
  function FixTopics(m: Dict): (r: Dict)
    ensures "topics" in r && TopicsValid(r["topics"])
    ensures TopicsValid(Get(m, "topics")) ==> r == m
    ensures !TopicsValid(Get(m, "topics")) ==> r["topics"] == Strings(DefaultTopics)
    ensures forall k :: k in r <==> k in m || k == "topics"
    ensures forall k :: k in m && k != "topics" ==> r[k] == m[k]
  {
    if TopicsValid(Get(m, "topics")) then m else m["topics" := Strings(DefaultTopics)]
  }

  /** Lines 87-98: the sentiment is always set, to one of the three valid ones. */
  function FixSentiment(m: Dict): (r: Dict)
    ensures "sentiment" in r && SentimentValid(r["sentiment"])
    ensures r["sentiment"] == JString(NormalSentiment(Get(m, "sentiment")))
    ensures forall k :: k in r <==> k in m || k == "sentiment"
    ensures forall k :: k in m && k != "sentiment" ==> r[k] == m[k]
  {
    m["sentiment" := JString(NormalSentiment(Get(m, "sentiment")))]
  }

  /** `_validate_result(result)` on the entries `m` of `result`: the repaired entries, or the
      exception raised by `.strip()` on a summary that is not a string. */
  function Validated(m: Dict): (r: Result<Dict>)
    ensures r.Raised? <==> SummaryRaises(m)
    ensures r.Raised? ==> r.error == AttributeError
    ensures r.Ok? ==> Conforms(r.value)
    ensures r.Ok? ==> forall k :: k in r.value <==> k in m || k == "summary" || k == "topics" || k == "sentiment"
    ensures r.Ok? ==> forall k :: k in m && k !in Fields ==> r.value[k] == m[k]
  {
    if SummaryRaises(m) then Raised(AttributeError)
    else Ok(FixSentiment(FixTopics(FixTitle(FixSummary(m)))))
  }

  /** Field by field: a valid summary, title and topics are kept as they are (the summary is not
      stripped), an invalid one is replaced by its default, and the sentiment is normalised. */
  lemma ValidatedFields(m: Dict)
    requires !SummaryRaises(m)
    ensures var d := Validated(m).value;
      && d["summary"] == (if SummaryValid(Get(m, "summary")) then m["summary"] else JString(DefaultSummary))
      && ("title" in d <==> "title" in m)
      && ("title" in m ==> d["title"] == if m["title"].JString? then m["title"] else JNull)
      && d["topics"] == (if TopicsValid(Get(m, "topics")) then m["topics"] else Strings(DefaultTopics))
      && d["sentiment"] == JString(NormalSentiment(Get(m, "sentiment")))
  {
    var m1 := FixSummary(m);
    var m2 := FixTitle(m1);
    var m3 := FixTopics(m2);
    assert Get(m3, "sentiment") == Get(m, "sentiment");
    assert Get(m2, "topics") == Get(m, "topics");
    assert Get(m1, "title") == Get(m, "title");
  }

  /** A record that already conforms is returned unchanged. */
  lemma ConformingIsFixpoint(m: Dict)
    requires Conforms(m)
    ensures Validated(m) == Ok(m)
  {
    NormalSentimentFacts(m["sentiment"]);
    assert FixTopics(FixTitle(FixSummary(m))) == m;
    assert m["sentiment" := m["sentiment"]] == m;
  }

  /** Validating a validated record changes nothing. */
  lemma ValidatedIdempotent(m: Dict)
    requires !SummaryRaises(m)
    ensures Validated(Validated(m).value) == Validated(m)
  {
    ConformingIsFixpoint(Validated(m).value);
  }

  /** Example: an empty reply object gets every default; the title stays absent, as the code
      only replaces a title that is present. */
  lemma ValidatedEmpty()
    ensures var d := Validated(map[]).value;
      && d["summary"] == JString(DefaultSummary)
      && "title" !in d
      && d["topics"] == Strings(DefaultTopics)
      && d["sentiment"] == JString("neutral")
  {
    ValidatedFields(map[]);
    NormalSentimentFacts(JNull);
  }

  /** "VERY POSITIVE" lowers and strips to "very positive", which is no valid sentiment. */
  lemma ShoutedSentimentIsNeutral()
    ensures NormalSentiment(JString("VERY POSITIVE")) == "neutral"
  {
    var s := "VERY POSITIVE";
    LowerFacts(s);
    var l := Lower(s);
    TrimUntouched(l, Whitespace);
    assert |Strip(l)| == 13;
  }

  /** Example: an empty summary, an unknown sentiment and two topics are all replaced. */
  lemma ValidatedDefaults()
    ensures var m := map["summary" := JString(""), "sentiment" := JString("VERY POSITIVE"),
                         "topics" := JArray([JString("a"), JString("b")])];
      var d := Validated(m).value;
      && d["summary"] == JString(DefaultSummary)
      && d["topics"] == Strings(DefaultTopics)
      && d["sentiment"] == JString("neutral")
  {
    var m := map["summary" := JString(""), "sentiment" := JString("VERY POSITIVE"),
                 "topics" := JArray([JString("a"), JString("b")])];
    ValidatedFields(m);
    ShoutedSentimentIsNeutral();
  }

  /** "Positive" lowers to "positive". */
  lemma CapitalisedSentimentIsLowered()
    ensures NormalSentiment(JString("Positive")) == "positive"
  {
    var s := "Positive";
    assert Lower(s) == "positive" by {
      assert LowerChar(s[0]) == 'p';
    }
    ValidSentimentIsNormal("positive");
  }

  /** Example: a numeric title becomes `None`, three topics are kept as they are, and the
      sentiment is lowered. */
  lemma ValidatedRepairs()
    ensures var topics := JArray([JString("x"), JString("y"), JString("z")]);
      var m := map["summary" := JString("ok"), "title" := JNumber(42.0), "topics" := topics,
                   "sentiment" := JString("Positive")];
      var d := Validated(m).value;
      && d["summary"] == JString("ok")
      && d["title"] == JNull
      && d["topics"] == topics
      && d["sentiment"] == JString("positive")
  {
    var topics := JArray([JString("x"), JString("y"), JString("z")]);
    var m := map["summary" := JString("ok"), "title" := JNumber(42.0), "topics" := topics,
                 "sentiment" := JString("Positive")];
    NotBlankWhenStartVisible("ok");
    ValidatedFields(m);
    CapitalisedSentimentIsLowered();
  }

  /** A Python `dict` that the code updates in place. */
  class JsonDict {
    var entries: Dict

    constructor (entries: Dict)
      ensures this.entries == entries
    {
      this.entries := entries;
    }
  }

  /** `LLMService._validate_result`: repairs `result` in place and returns it. */
  method ValidateResult(result: JsonDict) returns (r: Result<JsonDict>)
    modifies result
    ensures r.Ok? ==> r.value == result
    ensures r.Raised? ==> result.entries == old(result.entries)
    ensures Validated(old(result.entries)) == if r.Ok? then Ok(result.entries) else Raised(r.error)
  {
    ghost var m := result.entries;
    var summary := Get(result.entries, "summary");
    if !Truthy(summary) {
      result.entries := result.entries["summary" := JString(DefaultSummary)];
    } else if !summary.JString? {
      return Raised(AttributeError);
    } else if IsBlank(summary.s) {
      result.entries := result.entries["summary" := JString(DefaultSummary)];
    }

    assert result.entries == FixSummary(m);
    var title := Get(result.entries, "title");
    if title != JNull && !title.JString? {
      result.entries := result.entries["title" := JNull];
    }

    assert result.entries == FixTitle(FixSummary(m));
    var topics := Get(result.entries, "topics");
    if !topics.JArray? || |topics.items| < 3 {
      result.entries := result.entries["topics" := Strings(DefaultTopics)];
    }

    assert result.entries == FixTopics(FixTitle(FixSummary(m)));
    var sentiment := Get(result.entries, "sentiment");
    var normal: string;
    if !sentiment.JString? {
      normal := "neutral";
    } else {
      normal := Strip(Lower(sentiment.s));
      if normal !in ValidSentiments {
        normal := "neutral";
      }
    }
    assert normal == NormalSentiment(sentiment);
    result.entries := result.entries["sentiment" := JString(normal)];
    return Ok(result);
  }

  /** The summary of the degraded record: the content, cut to its first 200 characters followed
      by "..." when it is longer. */
  function Truncated(content: string): (s: string)
    ensures |s| <= SummaryLimit + |Ellipsis|
    ensures |content| <= SummaryLimit ==> s == content
    ensures |content| > SummaryLimit ==> s == content[..SummaryLimit] + Ellipsis
  {
    if |content| > SummaryLimit then content[..SummaryLimit] + Ellipsis else content
  }

  /** The record returned when the reply does not decode as JSON. */
  function Degraded(content: string): (d: Dict)
    ensures Shaped(d) && d.Keys == Fields
    ensures d["title"] == JNull && d["sentiment"] == JString("neutral")
    ensures d["topics"] == Strings(DefaultTopics)
    ensures d["summary"] == JString(Truncated(content))
  {
    map[
      "summary" := JString(Truncated(content)),
      "title" := JNull,
      "topics" := Strings(DefaultTopics),
      "sentiment" := JString("neutral")
    ]
  }

  /** The degraded summary of stripped content is blank exactly when the content is empty. */
  lemma DegradedSummaryBlankIff(raw: string)
    ensures var s := Degraded(Strip(raw))["summary"].s;
      IsBlank(s) <==> Strip(raw) == []
  {
    var content := Strip(raw);
    var s := Truncated(content);
    if content != [] {
      TrimInfix(raw, Whitespace);
      assert s[0] == content[0];
      NotBlankWhenStartVisible(s);
    }
  }

  /** The chat-completion client, seen from `analyze_text`: the content of its reply to the prompt
      built from a text (`None` when the call raises or the reply has no content), and `json.loads`
      (`None` when it raises `JSONDecodeError`). */
  datatype LlmClient = LlmClient(reply: string -> Option<string>, parse: string -> Option<Json>)

  /** `LLMService()`: the client is created only when an API key is configured. */
  function Connect(apiKey: Option<string>, client: LlmClient): (r: Result<LlmClient>)
    ensures r.Ok? <==> apiKey.Some? && apiKey.value != []
    ensures r.Raised? ==> r.error == ValueError(MissingKeyMessage)
  {
    if apiKey.None? || apiKey.value == [] then Raised(ValueError(MissingKeyMessage)) else Ok(client)
  }

  /** `LLMService.analyze_text(text)`. */
  function AnalyzeText(client: LlmClient, text: string): (r: Result<Dict>)
    ensures IsBlank(text) ==> r == Raised(ValueError(EmptyTextMessage))
    ensures !IsBlank(text) && r.Raised? ==> r.error == Failure(ApiErrorMessage)
    ensures r.Ok? ==> Shaped(r.value)
    ensures !IsBlank(text) && client.reply(text).None? ==> r == Raised(Failure(ApiErrorMessage))
    ensures !IsBlank(text) && client.reply(text).Some? ==>
      var content := Strip(client.reply(text).value);
      && (client.parse(content).None? ==> r == Ok(Degraded(content)))
      && (client.parse(content).Some? && client.parse(content).value.JObject? ==>
            var m := client.parse(content).value.fields;
            !SummaryRaises(m) ==> r == Validated(m))
  {
    if IsBlank(text) then Raised(ValueError(EmptyTextMessage))
    else
      match client.reply(text)
      case None => Raised(Failure(ApiErrorMessage))
      case Some(raw) =>
        var content := Strip(raw);
        match client.parse(content)
        case None => Ok(Degraded(content))
        case Some(JObject(m)) =>
          (match Validated(m)
           case Ok(d) => Ok(d)
           case Raised(_) => Raised(Failure(ApiErrorMessage)))
        case Some(_) => Raised(Failure(ApiErrorMessage))
  }

  /** For a text that is not blank, the analysis succeeds exactly when the client replies and the
      stripped reply either fails to decode or decodes to an object whose summary does not raise. */
  lemma AnalyzeTextSucceedsIff(client: LlmClient, text: string)
    requires !IsBlank(text)
    ensures AnalyzeText(client, text).Ok? <==>
      && client.reply(text).Some?
      && var parsed := client.parse(Strip(client.reply(text).value));
         parsed.None? || (parsed.value.JObject? && !SummaryRaises(parsed.value.fields))
  {
  }

  /** Every summary `analyze_text` returns is non-blank, except the empty summary of a degraded
      record made from an empty reply. */
  lemma AnalyzeTextSummary(client: LlmClient, text: string)
    requires AnalyzeText(client, text).Ok?
    ensures var s := AnalyzeText(client, text).value["summary"];
      SummaryValid(s) || s == JString([])
  {
    var raw := client.reply(text).value;
    if client.parse(Strip(raw)).None? {
      DegradedSummaryBlankIff(raw);
    }
  }

  lemma PaddedSentimentLowered()
    ensures Lower(" Positive\n") == " positive\n"
  {
    var s := " Positive\n";
    assert LowerChar(s[1]) == 'p';
  }

  /** One whitespace character on each side of a word is stripped. */
  lemma StripAround(a: char, w: string, b: char)
    requires a in Whitespace && b in Whitespace
    requires w != [] && w[0] !in Whitespace && w[|w| - 1] !in Whitespace
    ensures Strip([a] + w + [b]) == w
  {
    var t := [a] + w + [b];
    assert t[1..] == w + [b];
    assert TrimStart(t, Whitespace) == w + [b];
    assert (w + [b])[..|w|] == w;
    assert TrimEnd(w + [b], Whitespace) == TrimEnd(w, Whitespace) == w;
  }

  lemma PaddedSentimentStripped()
    ensures Strip(" positive\n") == "positive"
  {
    StripAround(' ', "positive", '\n');
    assert [' '] + "positive" + ['\n'] == " positive\n";
  }

  /** Example: a reply sentiment of " Positive\n" is stored as "positive". */
  lemma SentimentExample()
    ensures NormalSentiment(JString(" Positive\n")) == "positive"
  {
    PaddedSentimentLowered();
    PaddedSentimentStripped();
  }
}

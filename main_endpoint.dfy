/** The `POST /analyze` endpoint of main.py: the request guards, the record built from the LLM
    analysis and the keywords, and the sentiment check before the record is stored. */
module Api {
  import opened Outcomes
  import opened Text
  import opened JsonValues
  import opened KeywordExtractor
  import opened LlmService

  const BadRequest: int := 400
  const ServiceUnavailable: int := 503

  const SupabaseUnavailableMessage: string :=
    "Supabase service is not available. Please check your configuration."
  const LlmUnavailableMessage: string :=
    "LLM service is not available. Please check your API key configuration."
  const AnalysisFailedPrefix: string := "Analysis failed: "

  const DefaultKeywords: seq<string> := ["text", "analysis", "content"]
  const KeywordCount: int := 3

  /** The answer to a request: an `HTTPException`, or the record handed to `create_analysis`. */
  datatype Response = Rejected(status: int, detail: string) | Stored(record: Dict)

  /** `str(e)`; the messages of the exceptions raised by the Python runtime are not modelled. */
  function Message(e: Exception): string
  {
    match e
    case ValueError(m) => m
    case Failure(m) => m
    case _ => []
  }

  /** The keyword list of the stored record: at least one and at most three strings. */
  predicate KeywordsValid(v: Json)
  {
    && v.JArray? && 1 <= |v.items| <= 3
    && forall k :: 0 <= k < |v.items| ==> v.items[k].JString?
  }

  /** What every stored record satisfies. */
  predicate RecordValid(d: Dict, text: string)
  {
    && "original_text" in d && d["original_text"] == JString(text)
    && "summary" in d && SummaryValid(d["summary"])
    && "title" in d && (d["title"].JNull? || d["title"].JString?)
    && "topics" in d && TopicsValid(d["topics"])
    && "sentiment" in d && SentimentValid(d["sentiment"])
    && "keywords" in d && KeywordsValid(d["keywords"])
  }

  /** `analysis_data` of lines 89-96, from the LLM result and the extracted keywords. */
  function AnalysisData(text: string, llmResult: Dict, keywords: seq<string>): (d: Dict)
    ensures "original_text" in d && d["original_text"] == JString(text)
    ensures "title" in d && d["title"] == Get(llmResult, "title")
    ensures "summary" in d && Truthy(d["summary"])
    ensures "topics" in d && Truthy(d["topics"])
    ensures "sentiment" in d && Truthy(d["sentiment"])
    ensures "keywords" in d && Truthy(d["keywords"])
    ensures Truthy(Get(llmResult, "summary")) ==> d["summary"] == llmResult["summary"]
    ensures Truthy(Get(llmResult, "topics")) ==> d["topics"] == llmResult["topics"]
    ensures Truthy(Get(llmResult, "sentiment")) ==> d["sentiment"] == llmResult["sentiment"]
    ensures keywords != [] ==> d["keywords"] == Strings(keywords)
    ensures !Truthy(Get(llmResult, "summary")) ==> d["summary"] == JString(DefaultSummary)
    ensures !Truthy(Get(llmResult, "topics")) ==> d["topics"] == Strings(DefaultTopics)
    ensures !Truthy(Get(llmResult, "sentiment")) ==> d["sentiment"] == JString("neutral")
    ensures keywords == [] ==> d["keywords"] == Strings(DefaultKeywords)
  {
    map[
      "original_text" := JString(text),
      "summary" := Or(Get(llmResult, "summary"), JString(DefaultSummary)),
      "title" := Get(llmResult, "title"),
      "topics" := Or(Get(llmResult, "topics"), Strings(DefaultTopics)),
      "sentiment" := Or(Get(llmResult, "sentiment"), JString("neutral")),
      "keywords" := Or(Strings(keywords), Strings(DefaultKeywords))
    ]
  }

  /** The check of lines 99-102: a valid sentiment is kept as it is, with no lowering or
      stripping at this layer; anything else becomes "neutral". */
  function CheckedSentiment(v: Json): (r: Json)
    ensures SentimentValid(r)
    ensures SentimentValid(v) ==> r == v
    ensures !SentimentValid(v) ==> r == JString("neutral")
  {
    if !v.JString? || v.s !in ValidSentiments then JString("neutral") else v
  }

  /** Example: this layer does not lower-case, so "Positive" becomes "neutral". */
  lemma CheckedSentimentExample()
    ensures CheckedSentiment(JString("Positive")) == JString("neutral")
  {
    assert "Positive" !in ValidSentiments by {
      assert "Positive"[0] != "positive"[0];
    }
  }

  /** `analyze_text(request)`: `supabaseReady` and `llm` are the two services main.py set up
      (`llm` is `None` when `LLMService()` raised), `nltk` the keyword toolkit. */
  method AnalyzeEndpoint(text: string, supabaseReady: bool, llm: Option<LlmClient>, nltk: Option<Toolkit>)
    returns (resp: Response)
    ensures IsBlank(text) ==> resp == Rejected(BadRequest, EmptyTextMessage)
    ensures !IsBlank(text) && !supabaseReady ==> resp == Rejected(ServiceUnavailable, SupabaseUnavailableMessage)
    ensures !IsBlank(text) && supabaseReady && llm.None? ==> resp == Rejected(ServiceUnavailable, LlmUnavailableMessage)
    ensures !IsBlank(text) && supabaseReady && llm.Some? ==>
      var analysis := AnalyzeText(llm.value, text);
      && (analysis.Ok? <==> resp.Stored?)
      && (analysis.Raised? ==> resp == Rejected(ServiceUnavailable, AnalysisFailedPrefix + Message(analysis.error)))
    ensures resp.Stored? ==> llm.Some? && AnalyzeText(llm.value, text).Ok?
    ensures resp.Stored? ==>
      var data := AnalysisData(text, AnalyzeText(llm.value, text).value, ExtractKeywords(nltk, text, KeywordCount));
      resp.record == data["sentiment" := CheckedSentiment(data["sentiment"])]
    ensures resp.Stored? ==> RecordValid(resp.record, text)
    ensures resp.Stored? ==> resp.record["sentiment"] == AnalyzeText(llm.value, text).value["sentiment"]
    ensures resp.Stored? ==>
      var keywords := ExtractKeywords(nltk, text, KeywordCount);
      resp.record["keywords"] == Strings(if keywords == [] then DefaultKeywords else keywords)
  {
    if IsBlank(text) {
      return Rejected(BadRequest, EmptyTextMessage);
    }
    if !supabaseReady {
      return Rejected(ServiceUnavailable, SupabaseUnavailableMessage);
    }
    if llm.None? {
      return Rejected(ServiceUnavailable, LlmUnavailableMessage);
    }

    var analysis := AnalyzeText(llm.value, text);
    if analysis.Raised? {
      var e := analysis.error;
      if e.ValueError? {
        return Rejected(BadRequest, Message(e));
      }
      return Rejected(ServiceUnavailable, AnalysisFailedPrefix + Message(e));
    }
    var llmResult := analysis.value;
    var keywords := ExtractKeywords(nltk, text, KeywordCount);
    var data := AnalysisData(text, llmResult, keywords);

    StoredRecordValid(llm.value, text, keywords, data);

    var sentiment := data["sentiment"];
    if !sentiment.JString? || sentiment.s !in ValidSentiments {
      data := data["sentiment" := JString("neutral")];
    }
    assert data == AnalysisData(text, llmResult, keywords);
    return Stored(data);
  }

  /** The record built from a successful analysis passes the sentiment check unchanged and
      satisfies `RecordValid`: the empty summary of a degraded record is replaced, every other
      field of the analysis is kept. */
  lemma StoredRecordValid(client: LlmClient, text: string, keywords: seq<string>, data: Dict)
    requires AnalyzeText(client, text).Ok?
    requires |keywords| <= 3
    requires data == AnalysisData(text, AnalyzeText(client, text).value, keywords)
    ensures CheckedSentiment(data["sentiment"]) == data["sentiment"] == AnalyzeText(client, text).value["sentiment"]
    ensures RecordValid(data, text)
  {
    var d := AnalyzeText(client, text).value;
    AnalyzeTextSummary(client, text);
    DefaultSummaryValid();
  }
}

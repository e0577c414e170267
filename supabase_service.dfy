/** `SupabaseService` of supabase_service.py: reading the connection settings and the topic search
    over the stored analyses. */
module Supabase {
  import opened Outcomes
  import opened Text
  import opened Seqs
  import opened JsonValues

  const MissingSettingsMessage: string :=
    "SUPABASE_URL and SUPABASE_KEY environment variables are required"
  const SearchFailedMessage: string := "Failed to search analyses"

  /** The characters of `.strip("'\"")`. */
  const Quotes: set<char> := {'\'', '"'}

  /** `s.strip("'\"")`: removes the single and double quotes around a setting. */
  function StripQuotes(s: string): (r: string)
    ensures |r| <= |s|
  {
    Trim(s, Quotes)
  }

  /** Only quotes are removed, all of the leading and trailing ones, and nothing in between;
      stripping again changes nothing. */
  lemma StripQuotesFacts(s: string)
    ensures var a, r := |s| - |TrimStart(s, Quotes)|, StripQuotes(s);
      && r == s[a..a + |r|]
      && (forall k :: 0 <= k < a ==> s[k] in Quotes)
      && (forall k :: a + |r| <= k < |s| ==> s[k] in Quotes)
      && (r == [] || (r[0] !in Quotes && r[|r| - 1] !in Quotes))
    ensures StripQuotes(StripQuotes(s)) == StripQuotes(s)
  {
    TrimInfix(s, Quotes);
    TrimIdempotent(s, Quotes);
  }

  /** Example: a quoted URL loses its quotes. */
  lemma StripQuotesExample()
    ensures StripQuotes("\"https://x.supabase.co\"") == "https://x.supabase.co"
  {
    var w := "https://x.supabase.co";
    var t := "\"https://x.supabase.co\"";
    assert t == ['"'] + w + ['"'];
    assert t[1..] == w + ['"'];
    assert TrimStart(t, Quotes) == w + ['"'];
    assert (w + ['"'])[..|w|] == w;
    assert TrimEnd(w + ['"'], Quotes) == TrimEnd(w, Quotes) == w;
  }

  /** The connection settings of the service. */
  class SupabaseService {
    var url: string
    var key: string

    constructor (url: string, key: string)
      ensures this.url == url && this.key == key
    {
      this.url := url;
      this.key := key;
    }

    /** Removes the quotes around both settings, in place. */
    method StripSettingQuotes()
      modifies this
      ensures url == StripQuotes(old(url)) && key == StripQuotes(old(key))
    {
      url := StripQuotes(url);
      key := StripQuotes(key);
    }
  }

  /** `not os.getenv(name)`: the variable is unset or empty. */
  predicate Missing(setting: Option<string>)
  {
    setting.None? || setting.value == []
  }

  /** `SupabaseService()` with the two environment variables; the client library itself is not
      part of this model. */
  method Connect(urlSetting: Option<string>, keySetting: Option<string>) returns (r: Result<SupabaseService>)
    ensures r.Raised? <==> Missing(urlSetting) || Missing(keySetting)
    ensures r.Raised? ==> r.error == ValueError(MissingSettingsMessage)
    ensures r.Ok? ==> fresh(r.value)
    ensures r.Ok? ==> r.value.url == StripQuotes(urlSetting.value) && r.value.key == StripQuotes(keySetting.value)
  {
    if Missing(urlSetting) || Missing(keySetting) {
      return Raised(ValueError(MissingSettingsMessage));
    }
    var service := new SupabaseService(urlSetting.value, keySetting.value);
    service.StripSettingQuotes();
    return Ok(service);
  }

  // ---------------------------------------------------------------------------------------------
  // Search

  /** A stored analysis, as the database returns it. */
  type Row = Dict

  /** The answer to `select("*")`: the call raised, or its `data` (`None` for no data). */
  datatype Fetch = FetchFailed | Fetched(data: Option<seq<Row>>)

  /** Python's `str(v)`; `render` gives the text of numbers, lists and objects. */
  function Str(render: Json -> string, v: Json): string
  {
    match v
    case JString(s) => s
    case JNull => "None"
    case JBool(b) => if b then "True" else "False"
    case _ => render(v)
  }

  /** `any(needle in str(e).lower() for e in v)`: a list yields its elements, a string its
      characters and an object its keys; iterating over anything else raises. The answer is true
      exactly when `needle` occurs in the lowered `str` of one of the elements. */
  function AnyElementContains(render: Json -> string, v: Json, needle: string): (r: Result<bool>)
    ensures r.Raised? <==> !Iterable(v)
    ensures r.Raised? ==> r.error == TypeError
    ensures Iterable(v) ==> r == Ok(exists c :: c in Elements(render, v) && Contains(Lower(c), needle))
  {
    match v
    case JArray(items) => Ok(exists i | 0 <= i < |items| :: Contains(Lower(Str(render, items[i])), needle))
    case JString(s) => Ok(exists i | 0 <= i < |s| :: Contains(Lower([s[i]]), needle))
    case JObject(fields) => Ok(exists k | k in fields :: Contains(Lower(k), needle))
    case _ => Raised(TypeError)
  }

  /** The test the loop of `search_analyses` applies to one row, with `needle` the lowered topic:
      topics, then keywords, then the summary, then the original text; the first hit wins, and a
      field reached with the wrong type raises: `TypeError` for topics or keywords that cannot
      be iterated over, `AttributeError` for a summary or original text that is not a string. */
  function RowMatches(render: Json -> string, row: Row, needle: string): (r: Result<bool>)
    ensures r.Raised? ==> !Searchable(row)
    ensures r.Raised? ==> r.error == TypeError || r.error == AttributeError
    ensures !Iterable(GetOr(row, "topics", JArray([]))) ==> r == Raised(TypeError)
  {
    match AnyElementContains(render, GetOr(row, "topics", JArray([])), needle)
    case Raised(e) => Raised(e)
    case Ok(true) => Ok(true)
    case Ok(false) =>
      match AnyElementContains(render, GetOr(row, "keywords", JArray([])), needle)
      case Raised(e) => Raised(e)
      case Ok(true) => Ok(true)
      case Ok(false) =>
        var summary := GetOr(row, "summary", JString([]));
        if !summary.JString? then Raised(AttributeError)
        else if Contains(Lower(summary.s), needle) then Ok(true)
        else
          var original := GetOr(row, "original_text", JString([]));
          if !original.JString? then Raised(AttributeError)
          else Ok(Contains(Lower(original.s), needle))
  }

  predicate Iterable(v: Json)
  {
    v.JArray? || v.JString? || v.JObject?
  }

  /** The strings `str(e)` of what iterating over `v` yields. */
  function Elements(render: Json -> string, v: Json): set<string>
  {
    match v
    case JArray(items) => set i | 0 <= i < |items| :: Str(render, items[i])
    case JString(s) => set i | 0 <= i < |s| :: [s[i]]
    case JObject(fields) => fields.Keys
    case _ => {}
  }

  /** A row none of whose searched fields has a type that makes the search raise; absent topics
      and keywords count as empty lists, an absent summary or original text as an empty string. */
  predicate Searchable(row: Row)
  {
    && Iterable(GetOr(row, "topics", JArray([])))
    && Iterable(GetOr(row, "keywords", JArray([])))
    && GetOr(row, "summary", JString([])).JString?
    && GetOr(row, "original_text", JString([])).JString?
  }

  /** Every string the search looks into: each topic, each keyword, the summary and the original
      text. */
  function Candidates(render: Json -> string, row: Row): set<string>
    requires Searchable(row)
  {
    Elements(render, GetOr(row, "topics", JArray([])))
      + Elements(render, GetOr(row, "keywords", JArray([])))
      + {GetOr(row, "summary", JString([])).s, GetOr(row, "original_text", JString([])).s}
  }

  /** The lowered topic occurs in one of the candidate strings, lowered. */
  predicate Mentions(render: Json -> string, row: Row, needle: string)
    requires Searchable(row)
  {
    exists c :: c in Candidates(render, row) && Contains(Lower(c), needle)
  }

  /** On a row that cannot make it raise, the loop's test keeps the row exactly when the lowered
      topic occurs in one of the candidate strings, whatever the order the fields are tried in. */
  lemma RowMatchesIff(render: Json -> string, row: Row, needle: string)
    requires Searchable(row)
    ensures RowMatches(render, row, needle) == Ok(Mentions(render, row, needle))
  {
    var summary, original := GetOr(row, "summary", JString([])).s, GetOr(row, "original_text", JString([])).s;
    if Mentions(render, row, needle) {
      var c :| c in Candidates(render, row) && Contains(Lower(c), needle);
      assert c in Elements(render, GetOr(row, "topics", JArray([])))
        || c in Elements(render, GetOr(row, "keywords", JArray([]))) || c == summary || c == original;
    }
  }

  /** A reached field of the wrong type raises: a summary that is present and not a string
      (`None` included) on a row without a topic or keyword hit, and an original text that is
      present and not a string on a row whose string summary does not mention the topic either. */
  lemma RowMatchesRaises(render: Json -> string, row: Row, needle: string)
    ensures && Iterable(GetOr(row, "topics", JArray([])))
            && Iterable(GetOr(row, "keywords", JArray([])))
            && AnyElementContains(render, GetOr(row, "topics", JArray([])), needle) == Ok(false)
            && AnyElementContains(render, GetOr(row, "keywords", JArray([])), needle) == Ok(false)
            && "summary" in row && !row["summary"].JString?
        ==> RowMatches(render, row, needle) == Raised(AttributeError)
    ensures && AnyElementContains(render, GetOr(row, "topics", JArray([])), needle) == Ok(false)
            && AnyElementContains(render, GetOr(row, "keywords", JArray([])), needle) == Ok(false)
            && GetOr(row, "summary", JString([])).JString?
            && !Contains(Lower(GetOr(row, "summary", JString([])).s), needle)
            && "original_text" in row && !row["original_text"].JString?
        ==> RowMatches(render, row, needle) == Raised(AttributeError)
  {
  }

  /** The rows the loop keeps, in order, or the exception of the first row whose test raises. */
  function MatchingRows(render: Json -> string, rows: seq<Row>, needle: string): (r: Result<seq<Row>>)
    ensures r.Ok? ==> IsSubsequence(r.value, rows)
  {
    if rows == [] then Ok([])
    else
      var init, last := rows[..|rows| - 1], rows[|rows| - 1];
      match MatchingRows(render, init, needle)
      case Raised(e) => Raised(e)
      case Ok(kept) =>
        match RowMatches(render, last, needle)
        case Raised(e) => Raised(e)
        case Ok(b) =>
          assert (kept + [last])[..|kept|] == kept;
          Ok(if b then kept + [last] else kept)
  }

  /** The row test as a filter condition: the row is kept. */
  function Kept(render: Json -> string, needle: string): Row -> bool
  {
    row => RowMatches(render, row, needle) == Ok(true)
  }

  /** The loop succeeds exactly when no row's test raises, and then keeps exactly the rows the
      list comprehension `[row for row in rows if matches(row)]` keeps. */
  lemma {:induction false} MatchingRowsIsFilter(render: Json -> string, rows: seq<Row>, needle: string)
    ensures MatchingRows(render, rows, needle).Ok?
      <==> forall k :: 0 <= k < |rows| ==> RowMatches(render, rows[k], needle).Ok?
    ensures MatchingRows(render, rows, needle).Ok?
      ==> MatchingRows(render, rows, needle).value == Filter(rows, Kept(render, needle))
  {
    if rows != [] {
      var init, last := rows[..|rows| - 1], rows[|rows| - 1];
      MatchingRowsIsFilter(render, init, needle);
      assert forall k :: 0 <= k < |init| ==> init[k] == rows[k];
    }
  }

  /** `search_analyses(topic)` with the rows `fetch` gives: no data gives no rows, every failure
      is reported with one message, and the rows found are some of the rows fetched, in order. */
  function Searched(render: Json -> string, fetch: Fetch, topic: string): (r: Result<seq<Row>>)
    ensures fetch.Fetched? && (fetch.data.None? || fetch.data.value == []) ==> r == Ok([])
    ensures r.Raised? ==> r.error == Failure(SearchFailedMessage)
    ensures r.Ok? ==> fetch.Fetched? && (fetch.data.Some? ==> IsSubsequence(r.value, fetch.data.value))
  {
    match fetch
    case FetchFailed => Raised(Failure(SearchFailedMessage))
    case Fetched(data) =>
      if data.None? || data.value == [] then Ok([])
      else
        match MatchingRows(render, data.value, Lower(topic))
        case Ok(kept) => Ok(kept)
        case Raised(_) => Raised(Failure(SearchFailedMessage))
  }

  /** What the search returns when there is data: unless a row raises, the fetched rows the
      loop's test keeps, in their order, each as often as it was fetched. */
  lemma SearchedFacts(render: Json -> string, fetch: Fetch, topic: string, row: Row)
    ensures fetch.Fetched? && fetch.data.Some? ==>
      var rows := fetch.data.value;
      && (Searched(render, fetch, topic).Ok? <==> forall k :: 0 <= k < |rows| ==> RowMatches(render, rows[k], Lower(topic)).Ok?)
      && (Searched(render, fetch, topic).Ok? ==>
            var found := Searched(render, fetch, topic).value;
            && IsSubsequence(found, rows)
            && (row in found <==> row in rows && RowMatches(render, row, Lower(topic)) == Ok(true))
            && multiset(found)[row] == if RowMatches(render, row, Lower(topic)) == Ok(true) then multiset(rows)[row] else 0)
  {
    if fetch.Fetched? && fetch.data.Some? {
      var rows := fetch.data.value;
      MatchingRowsIsFilter(render, rows, Lower(topic));
      FilterFacts(rows, Kept(render, Lower(topic)), row);
    }
  }

  /** `SupabaseService.search_analyses(topic)`: the loop over the fetched rows. */
  method SearchAnalyses(render: Json -> string, fetch: Fetch, topic: string) returns (r: Result<seq<Row>>)
    ensures r == Searched(render, fetch, topic)
  {
    if fetch.FetchFailed? {
      return Raised(Failure(SearchFailedMessage));
    }
    if fetch.data.None? || fetch.data.value == [] {
      return Ok([]);
    }
    var rows := fetch.data.value;
    var matching: seq<Row> := [];
    var needle := Lower(topic);
    var i := 0;
    while i < |rows|
      invariant 0 <= i <= |rows|
      invariant MatchingRows(render, rows[..i], needle) == Ok(matching)
    {
      var row := rows[i];
      assert rows[..i + 1][..i] == rows[..i];
      var hit := RowMatches(render, row, needle);
      if hit.Raised? {
        RaisedPrefix(render, rows, i + 1, needle);
        return Raised(Failure(SearchFailedMessage));
      }
      if hit.value {
        matching := matching + [row];
      }
      i := i + 1;
    }
    assert rows[..i] == rows;
    return Ok(matching);
  }

  /** Once a prefix of the rows raises, the whole search raises. */
  lemma {:induction false} RaisedPrefix(render: Json -> string, rows: seq<Row>, n: nat, needle: string)
    requires n <= |rows| && MatchingRows(render, rows[..n], needle).Raised?
    ensures MatchingRows(render, rows, needle).Raised?
    decreases |rows| - n
  {
    if n < |rows| {
      assert rows[..n + 1][..n] == rows[..n];
      RaisedPrefix(render, rows, n + 1, needle);
    } else {
      assert rows[..n] == rows;
    }
  }
}

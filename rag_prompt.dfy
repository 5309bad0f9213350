/**
 * The deterministic part of `src/modes/rag_mode.py`: the search query, the
 * extraction of document texts from a search response, the context built
 * from them and the messages `rag_with_elastic` sends to the model. The
 * search response is a parameter: it is what `es.search` returned.
 */
module RagPrompt {
  import opened Errors
  import opened Json
  import opened Conversation

  const Separator: string := "\n\n"
  /** "No related documents were found." */
  const NoDocuments: string := "関連ドキュメントは見つかりませんでした。"
  /** "The following information was retrieved from the documents:" */
  const PromptHeader: string := "以下の文書から情報を取得しました:\n"
  /** "Question from the user:" */
  const QuestionHeader: string := "\n\nユーザーからの質問:\n"

  /**
   * `search_query`: a `multi_match` of the user's query over exactly the
   * `title` and `content` fields (sent as the body's `query`).
   */
  function SearchQuery(query: string): (q: Json)
    ensures q.Object? && q.fields.Keys == {"multi_match"}
    ensures q.fields["multi_match"].Object?
    ensures q.fields["multi_match"].fields.Keys == {"query", "fields"}
    ensures TextField(q.fields["multi_match"], "query") == Some(query)
    ensures q.fields["multi_match"].fields["fields"] == Array([Str("title"), Str("content")])
  {
    Object(map["multi_match" := Object(map["query" := Str(query), "fields" := Array([Str("title"), Str("content")])])])
  }

  /**
   * `res.get("hits", {}).get("hits", [])`: the hit list, `[]` when either
   * level is missing. Iterating a dict yields its keys, and indexing a key
   * string with `"_source"` raises, so only an empty dict or string passes
   * for an empty list; `.get` on a non-dict raises AttributeError.
   */
  function HitList(res: map<string, Json>): (r: Result<seq<Json>>)
    ensures "hits" !in res ==> r == Ok([])
    ensures "hits" in res && !res["hits"].Object? ==> r == Err(AttributeError)
    ensures "hits" in res && res["hits"].Object? && "hits" !in res["hits"].fields ==> r == Ok([])
    ensures "hits" in res && res["hits"].Object? && "hits" in res["hits"].fields && res["hits"].fields["hits"].Array? ==>
      r == Ok(res["hits"].fields["hits"].items)
    ensures "hits" in res && res["hits"].Object? && "hits" in res["hits"].fields && !res["hits"].fields["hits"].Array? ==>
      var inner := res["hits"].fields["hits"];
      r == if inner == Object(map[]) || inner == Str("") then Ok([]) else Err(TypeError)
  {
    var outer := if "hits" in res then res["hits"] else Object(map[]);
    if !outer.Object? then Err(AttributeError)
    else
      var inner := if "hits" in outer.fields then outer.fields["hits"] else Array([]);
      match inner
      case Array(items) => Ok(items)
      case Object(fields) => if fields == map[] then Ok([]) else Err(TypeError)
      case Str(s) => if s == "" then Ok([]) else Err(TypeError)
      case _ => Err(TypeError)
  }

  /** `hit["_source"].get("content", "")` for one hit. */
  function SourceContent(hit: Json): (r: Result<Json>)
    ensures r.Ok? <==> hit.Object? && "_source" in hit.fields && hit.fields["_source"].Object?
    ensures r.Ok? && "content" !in hit.fields["_source"].fields ==> r.value == Str("")
    ensures r.Ok? && "content" in hit.fields["_source"].fields ==> r.value == hit.fields["_source"].fields["content"]
  {
    if !hit.Object? then Err(TypeError)
    else if "_source" !in hit.fields then Err(KeyError("_source"))
    else
      var source := hit.fields["_source"];
      if !source.Object? then Err(AttributeError)
      else if "content" in source.fields then Ok(source.fields["content"])
      else Ok(Str(""))
  }

  /**
   * The list comprehension over the hits: one content value per hit, in hit
   * order; the first hit that cannot be read raises.
   */
  function Contents(hits: seq<Json>): (r: Result<seq<Json>>)
    ensures r.Ok? <==> forall i :: 0 <= i < |hits| ==> SourceContent(hits[i]).Ok?
    ensures r.Ok? ==> |r.value| == |hits|
    ensures r.Ok? ==> forall i :: 0 <= i < |hits| ==> r.value[i] == SourceContent(hits[i]).value
    ensures r.Err? ==> exists i :: (0 <= i < |hits| && SourceContent(hits[i]) == Err(r.fault)
                                    && forall j :: 0 <= j < i ==> SourceContent(hits[j]).Ok?)
    decreases |hits|
  {
    if hits == [] then Ok([])
    else match SourceContent(hits[0])
      case Err(f) => Err(f)
      case Ok(c) =>
        match Contents(hits[1..])
        case Err(f) =>
          var i :| 0 <= i < |hits[1..]| && SourceContent(hits[1..][i]) == Err(f)
            && forall j :: 0 <= j < i ==> SourceContent(hits[1..][j]).Ok?;
          assert SourceContent(hits[i + 1]) == Err(f);
          Err(f)
        case Ok(cs) => Ok([c] + cs)
  }

  /** `query_elasticsearch` given the response of the search. */
  function QueryElasticsearch(res: map<string, Json>): (r: Result<seq<Json>>)
    ensures "hits" !in res ==> r == Ok([])
    ensures "hits" in res && res["hits"].Object? && "hits" !in res["hits"].fields ==> r == Ok([])
    ensures r.Ok? ==> HitList(res).Ok? && |r.value| == |HitList(res).value|
    ensures r.Ok? ==> forall i :: 0 <= i < |r.value| ==> Ok(r.value[i]) == SourceContent(HitList(res).value[i])
    ensures r.Ok? <==> HitList(res).Ok? && forall i :: 0 <= i < |HitList(res).value| ==> SourceContent(HitList(res).value[i]).Ok?
    ensures r.Err? ==> r.fault == if HitList(res).Err? then HitList(res).fault else Contents(HitList(res).value).fault
  {
    match HitList(res)
    case Err(f) => Err(f)
    case Ok(hits) => Contents(hits)
  }

  /** Python's `sep.join(parts)`. */
  function Join(parts: seq<string>, sep: string): string
  {
    if parts == [] then ""
    else if |parts| == 1 then parts[0]
    else Join(parts[..|parts| - 1], sep) + sep + parts[|parts| - 1]
  }

  /** The space the parts take in a join, each followed by one separator. */
  function Span(parts: seq<string>, sep: string): nat
  {
    if parts == [] then 0 else Span(parts[..|parts| - 1], sep) + |parts[|parts| - 1]| + |sep|
  }

  lemma {:induction false} JoinLength(parts: seq<string>, sep: string)
    requires parts != []
    ensures |Join(parts, sep)| + |sep| == Span(parts, sep)
    decreases |parts|
  {
    if |parts| > 1 {
      JoinLength(parts[..|parts| - 1], sep);
    }
  }

  /**
   * The layout of a join: part k starts where the parts before it and their
   * separators end, and a separator follows every part but the last.
   */
  lemma {:induction false} JoinLayout(parts: seq<string>, sep: string, k: nat)
    requires k < |parts|
    ensures Span(parts[..k], sep) + |parts[k]| <= |Join(parts, sep)|
    ensures Join(parts, sep)[Span(parts[..k], sep)..Span(parts[..k], sep) + |parts[k]|] == parts[k]
    ensures k + 1 < |parts| ==> Span(parts[..k + 1], sep) == Span(parts[..k], sep) + |parts[k]| + |sep|
    ensures k + 1 < |parts| ==> Span(parts[..k + 1], sep) <= |Join(parts, sep)|
    ensures k + 1 < |parts| ==>
      Join(parts, sep)[Span(parts[..k], sep) + |parts[k]|..Span(parts[..k + 1], sep)] == sep
    decreases |parts|
  {
    var n := |parts|;
    assert parts[..k + 1][..k] == parts[..k];
    if n == 1 {
      assert parts[..k] == [];
    } else {
      var init := parts[..n - 1];
      var left := Join(init, sep);
      var whole := Join(parts, sep);
      assert whole == left + sep + parts[n - 1];
      JoinLength(init, sep);
      if k < n - 1 {
        JoinLayout(init, sep, k);
        assert init[..k] == parts[..k] && init[k] == parts[k];
        var start := Span(parts[..k], sep);
        assert whole[start..start + |parts[k]|] == left[start..start + |parts[k]|];
        if k + 1 < n - 1 {
          assert init[..k + 1] == parts[..k + 1];
          assert whole[start + |parts[k]|..Span(parts[..k + 1], sep)] == left[start + |parts[k]|..Span(parts[..k + 1], sep)];
        } else {
          assert parts[..k + 1] == init;
        }
      } else {
        assert parts[..k] == init;
      }
    }
  }

  /** The texts of a list of string values. */
  function Texts(docs: seq<Json>): (r: seq<string>)
    requires forall i :: 0 <= i < |docs| ==> docs[i].Str?
    ensures |r| == |docs| && forall i :: 0 <= i < |docs| ==> docs[i] == Str(r[i])
  {
    if docs == [] then [] else [docs[0].s] + Texts(docs[1..])
  }

  /**
   * `context`: the documents joined by a blank line, or the fixed
   * no-documents sentence when there are none; joining a value that is not
   * a string raises TypeError.
   */
  function Context(docs: seq<Json>): (r: Result<string>)
    ensures docs == [] ==> r == Ok(NoDocuments)
    ensures r.Err? <==> exists i :: 0 <= i < |docs| && !docs[i].Str?
    ensures r.Ok? && docs != [] ==> r.value == Join(Texts(docs), Separator)
    ensures r.Err? ==> r.fault == TypeError
  {
    if docs == [] then Ok(NoDocuments)
    else if exists i :: 0 <= i < |docs| && !docs[i].Str? then Err(TypeError)
    else Ok(Join(Texts(docs), Separator))
  }

  /** Every document text appears in the context, in order, each separated from the next by a blank line. */
  lemma DocumentInContext(docs: seq<Json>, k: nat)
    requires k < |docs| && Context(docs).Ok?
    ensures var parts := Texts(docs); var c := Context(docs).value;
      && Span(parts[..k], Separator) + |parts[k]| <= |c|
      && c[Span(parts[..k], Separator)..Span(parts[..k], Separator) + |parts[k]|] == docs[k].s
  {
    JoinLayout(Texts(docs), Separator, k);
  }

  /** The f-string of the final user message: the header, the context, the question header, the query. */
  function Prompt(context: string, query: string): (p: string)
    ensures |p| == |PromptHeader| + |context| + |QuestionHeader| + |query|
    ensures p[..|PromptHeader|] == PromptHeader
    ensures p[|PromptHeader|..|PromptHeader| + |context|] == context
    ensures p[|PromptHeader| + |context|..|p| - |query|] == QuestionHeader
    ensures p[|p| - |query|..] == query
  {
    PromptHeader + context + QuestionHeader + query
  }

  /**
   * `rag_with_elastic` given the search response: the history's turns in
   * order, then one user message holding the prompt built from the context
   * and the query. Failures of extraction or joining propagate.
   */
  method RagWithElastic(query: string, history: seq<Entry>, res: map<string, Json>) returns (r: Result<seq<ChatMessage>>)
    ensures QueryElasticsearch(res).Err? ==> r == Err(QueryElasticsearch(res).fault)
    ensures QueryElasticsearch(res).Ok? && Context(QueryElasticsearch(res).value).Err? ==> r == Err(TypeError)
    ensures QueryElasticsearch(res).Ok? && Context(QueryElasticsearch(res).value).Ok? ==>
      r == Ok(Turns(history) + [ChatMessage(User, Prompt(Context(QueryElasticsearch(res).value).value, query))])
    ensures r.Ok? ==> |r.value| == 2 * |history| + 1
  {
    var docs := QueryElasticsearch(res);
    if docs.Err? {
      return Err(docs.fault);
    }
    var context := Context(docs.value);
    if context.Err? {
      return Err(context.fault);
    }
    var messages := [];
    for i := 0 to |history|
      invariant messages == Turns(history[..i])
    {
      var entry := history[i];
      assert history[..i + 1][..i] == history[..i];
      messages := messages + [ChatMessage(User, entry.user)];
      messages := messages + [ChatMessage(Assistant, entry.bot)];
    }
    assert history[..|history|] == history;
    var prompt := Prompt(context.value, query);
    messages := messages + [ChatMessage(User, prompt)];
    r := Ok(messages);
  }
}

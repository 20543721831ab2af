/**
  The `/invoke` endpoint: dispatches a tool name and a parameter mapping to
  one of the two text tools, or reports that the tool does not exist.
 */
module Dispatch {
  import opened Text
  import opened Tools
  import opened Manifest

  const OkStatus: int := 200
  const NotFoundStatus: int := 404

  /** The body of an `/invoke` reply. */
  datatype Response =
    | Summary(summary: string)
    | SentimentResult(sentiment: Label)
    | NotFound(detail: string)
  {
    /** The HTTP status the reply is sent with. */
    function Status(): (s: int)
      ensures s == NotFoundStatus <==> NotFound?
      ensures s == OkStatus <==> !NotFound?
    {
      if NotFound? then NotFoundStatus else OkStatus
    }

    /** The single key of the reply's JSON object. */
    function Key(): (k: string)
      ensures k == "detail" <==> NotFound?
      ensures k in ["summary", "sentiment", "detail"]
    {
      match this
      case Summary(_) => "summary"
      case SentimentResult(_) => "sentiment"
      case NotFound(_) => "detail"
    }
  }

  const DetailPrefix: string := "Tool '"
  const DetailSuffix: string := "' not found."

  /** The error detail reported for an unknown tool; it embeds the submitted
      name verbatim between a fixed prefix and suffix. */
  function NotFoundDetail(toolName: string): (detail: string)
    ensures |detail| == |DetailPrefix| + |toolName| + |DetailSuffix|
    ensures detail[..|DetailPrefix|] == DetailPrefix
    ensures detail[|DetailPrefix|..|DetailPrefix| + |toolName|] == toolName
    ensures detail[|DetailPrefix| + |toolName|..] == DetailSuffix
  {
    DetailPrefix + toolName + DetailSuffix
  }

  /** Recovers the tool name from a not-found detail. */
  function ToolNameOfDetail(detail: string): string
    requires |detail| >= |DetailPrefix| + |DetailSuffix|
  {
    detail[|DetailPrefix|..|detail| - |DetailSuffix|]
  }

  /** The detail message loses nothing: the submitted name can be read back,
      so different names always give different messages. */
  lemma NotFoundDetailRoundTrip(toolName: string)
    ensures ToolNameOfDetail(NotFoundDetail(toolName)) == toolName
  {
  }

  lemma NotFoundDetailInjective(a: string, b: string)
    requires NotFoundDetail(a) == NotFoundDetail(b)
    ensures a == b
  {
    NotFoundDetailRoundTrip(a);
    NotFoundDetailRoundTrip(b);
  }

  /** `params.get("text", "")`: the text argument, or the empty string when
      the caller left it out. */
  function TextParam(params: map<string, string>): (text: string)
    ensures "text" in params ==> text == params["text"]
    ensures "text" !in params ==> text == ""
  {
    if "text" in params then params["text"] else ""
  }

  /** The `/invoke` endpoint. Only the exact names of the two tools are
      dispatched; every other name is reported as not found. */
  function Invoke(toolName: string, params: map<string, string>): (r: Response)
    ensures r.NotFound? <==> toolName != SummarizeToolName && toolName != SentimentToolName
    ensures r.NotFound? ==> r.detail == NotFoundDetail(toolName) && r.Status() == NotFoundStatus
    ensures toolName == SummarizeToolName ==> r == Summary(Summarize(TextParam(params)))
    ensures toolName == SentimentToolName ==> r == SentimentResult(Sentiment(TextParam(params)))
  {
    if toolName == SummarizeToolName then
      Summary(Summarize(TextParam(params)))
    else if toolName == SentimentToolName then
      SentimentResult(Sentiment(TextParam(params)))
    else
      NotFound(NotFoundDetail(toolName))
  }

  /** The names the endpoint dispatches are exactly the tool names the
      manifest declares, and each dispatched reply carries the result key the
      manifest declares for that tool. */
  lemma InvokeAgreesWithManifest(toolName: string, params: map<string, string>)
    ensures Invoke(toolName, params).NotFound? <==> toolName !in ToolNames(Mcp)
    ensures Invoke(toolName, params).NotFound? <==> FindTool(Mcp, toolName).None?
    ensures !Invoke(toolName, params).NotFound? ==>
              Invoke(toolName, params).Status() == OkStatus
              && Invoke(toolName, params).Key() in FindTool(Mcp, toolName).value.resultKeys
  {
    McpToolNames();
  }

  /** An unknown tool's reply names exactly the tool that was asked for. */
  lemma NotFoundNamesTool(toolName: string, params: map<string, string>)
    requires Invoke(toolName, params).NotFound?
    ensures ToolNameOfDetail(Invoke(toolName, params).detail) == toolName
  {
    NotFoundDetailRoundTrip(toolName);
  }

  /** A missing "text" argument behaves as the empty text: the summary is
      empty and the sentiment neutral. */
  lemma MissingTextIsEmpty(params: map<string, string>)
    requires "text" !in params
    ensures Invoke(SummarizeToolName, params) == Summary("")
    ensures Invoke(SentimentToolName, params) == SentimentResult(Neutral)
  {
    NothingMentionedInEmpty(PositiveWords);
    NothingMentionedInEmpty(NegativeWords);
  }

  /** The empty text contains none of a list of non-empty keywords. */
  lemma NothingMentionedInEmpty(words: seq<string>)
    requires forall w :: w in words ==> |w| > 0
    ensures !MentionsAny(Lower(""), words)
  {
    assert Lower("") == "";
  }

  /** Only the "text" argument matters: two parameter maps that agree on it
      get the same reply from every tool name. */
  lemma InvokeReadsOnlyText(toolName: string, p: map<string, string>, q: map<string, string>)
    requires ("text" in p) == ("text" in q)
    requires "text" in p ==> p["text"] == q["text"]
    ensures Invoke(toolName, p) == Invoke(toolName, q)
  {
  }

  /** The string a client receives from `sentiment_check`, end to end: it
      is "positive" exactly when a positive keyword occurs in the lower-cased
      text argument, "negative" exactly when none does and a negative keyword
      occurs, and "neutral" otherwise. */
  lemma SentimentReply(params: map<string, string>)
    ensures var name := Invoke(SentimentToolName, params).sentiment.Name();
      && (name == "positive" <==> MentionsAny(Lower(TextParam(params)), PositiveWords))
      && (name == "negative" <==>
            !MentionsAny(Lower(TextParam(params)), PositiveWords)
            && MentionsAny(Lower(TextParam(params)), NegativeWords))
      && (name == "neutral" <==>
            !MentionsAny(Lower(TextParam(params)), PositiveWords)
            && !MentionsAny(Lower(TextParam(params)), NegativeWords))
  {
  }
}

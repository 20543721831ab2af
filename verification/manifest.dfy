/**
  The tool list of the discovery manifest the server publishes. Only the parts
  that the tool dispatcher has to agree with are modelled: each tool's name,
  the argument names it declares as required and the keys of the object it
  returns.
 */
module Manifest {

  datatype Option<T> = None | Some(value: T)

  datatype ToolDescriptor = ToolDescriptor(
    name: string,
    requiredArgs: seq<string>,
    resultKeys: seq<string>)

  datatype ServerManifest = ServerManifest(tools: seq<ToolDescriptor>)

  const SummarizeToolName: string := "summarize_feedback"
  const SentimentToolName: string := "sentiment_check"

  /** The tools of the manifest the server declares at start-up. */
  const Mcp: ServerManifest := ServerManifest(
    [ ToolDescriptor(SummarizeToolName, ["text"], ["summary"]),
      ToolDescriptor(SentimentToolName, ["text"], ["sentiment"]) ])

  /** The names of the declared tools, in declaration order. */
  function ToolNames(m: ServerManifest): (names: seq<string>)
    ensures |names| == |m.tools|
    ensures forall i :: 0 <= i < |m.tools| ==> names[i] == m.tools[i].name
  {
    seq(|m.tools|, i requires 0 <= i < |m.tools| => m.tools[i].name)
  }

  /** No two tools of a manifest share a name. */
  predicate DistinctToolNames(m: ServerManifest) {
    forall i, j :: 0 <= i < j < |m.tools| ==> m.tools[i].name != m.tools[j].name
  }

  /** Looks a tool up by name; `None` when the manifest does not declare it. */
  function FindTool(m: ServerManifest, name: string): (r: Option<ToolDescriptor>)
    ensures r.Some? ==> r.value in m.tools && r.value.name == name
    ensures r.None? <==> name !in ToolNames(m)
    decreases |m.tools|
  {
    if |m.tools| == 0 then None
    else if m.tools[0].name == name then Some(m.tools[0])
    else
      var rest := m.(tools := m.tools[1..]);
      assert ToolNames(m) == [m.tools[0].name] + ToolNames(rest);
      FindTool(rest, name)
  }

  /** The declared manifest lists exactly the two dispatched tools, once each,
      and both take a required "text" argument. */
  lemma McpToolNames()
    ensures ToolNames(Mcp) == [SummarizeToolName, SentimentToolName]
    ensures DistinctToolNames(Mcp)
    ensures forall t :: t in Mcp.tools ==> t.requiredArgs == ["text"]
  {
  }
}

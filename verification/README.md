# Local MCP server: tool dispatcher model

A Dafny model of the tool-invocation core of `local-mcp-server`, a small HTTP
service that publishes an MCP-style manifest and answers `POST /invoke`
requests. The request names a tool and passes a parameter mapping. The
dispatcher runs one of two text tools or reports that the tool does not exist:

- `summarize_feedback` truncates the `text` argument. A text longer than 75
  characters becomes its first 75 characters followed by `"..."`. Any other
  text is returned unchanged.
- `sentiment_check` lower-cases the `text` argument and looks for fixed
  keywords by substring search. A positive keyword (`good`, `great`,
  `excellent`, `love`, `amazing`) gives `positive`, even when a negative
  keyword is also present. Otherwise a negative keyword (`bad`, `terrible`,
  `poor`, `hate`, `slow`) gives `negative`. Otherwise the label is `neutral`.
- Any other tool name gets a 404 reply whose detail is
  `Tool '<name>' not found.`.
- A missing `text` argument is treated as the empty string.

Modules, one per concern:

- `Text` (`text.dfy`): ASCII lower-casing, and substring search (`Contains`)
  proved equal to a reference definition of "occurs at some position"
  (`Mentions`).
- `Tools` (`tools.dfy`): the two tools, the keyword lists and the sentiment
  `Label`.
- `Manifest` (`manifest.dfy`): the tool list of the declared manifest, with
  each tool descriptor reduced to its name, required arguments and result
  keys.
- `Dispatch` (`dispatch.dfy`): the `/invoke` reply, the not-found detail and
  the dispatcher itself. It also relates the dispatcher to the manifest.
- `Scenarios` (`scenarios.dfy`): worked sentiment examples.

Other revisions of this server behave differently. The model follows the code
in `main.py`:

- The truncation limit is 75 characters, not 80.
- The positive list is checked before the negative list.
- There is no `"Empty input."` placeholder for an empty text.
- The negative list has no `bug` or `issue`.

The manifest marks `text` as a required argument of both tools. The
dispatcher does not enforce this and defaults a missing `text` to `""`. The
model keeps the dispatcher's behaviour.

## Model

| member | source | states |
|---|---|---|
| Text.Lower | main.py:92 | lower-casing keeps the length, maps each character independently, and leaves no upper-case letter |
| Text.LowerIdempotent | main.py:92 | lower-casing an already lower-cased text changes nothing |
| Text.LowerAppend | main.py:92 | lower-casing a concatenation is the concatenation of the lower-cased parts |
| Text.Contains | main.py:94-96 | Python's `needle in hay` is true exactly when `needle` occurs in `hay` at some position |
| Text.MentionsAppend | main.py:94-96 | a keyword found in a text is still found after text is added before or after it |
| Tools.Summarize | main.py:86-89 | the summary has at most 78 characters and starts with the first min(len, 75) characters of the text; a text of at most 75 characters comes back unchanged; a longer one gives exactly 78 characters ending in `...` |
| Tools.SummarizeSameSummary | main.py:88 | two texts share a summary exactly when they are equal, or both are longer than 75 characters and agree on the first 75 |
| Tools.SummarizeIdempotent | main.py:88 | summarising a summary returns it unchanged |
| Tools.AnyContained | main.py:94-96 | `any(x in text for x in words)` is true exactly when some word of the list occurs in the text |
| Tools.Sentiment | main.py:91-98 | the label is positive exactly when a positive keyword occurs in the lower-cased text; negative exactly when none does and a negative keyword occurs; neutral exactly when neither list occurs |
| Tools.SentimentIgnoresCase | main.py:92 | a text and its lower case receive the same label |
| Tools.SentimentExtend | main.py:93-98 | adding text around a positive text keeps it positive; adding text around a text with any sentiment never makes it neutral |
| Tools.PositiveKeywordAlone | main.py:94-95 | each positive keyword, as the whole text, is labelled positive |
| Tools.NegativeKeywordAlone | main.py:94-97 | each negative keyword, as the whole text, is labelled negative; no negative keyword contains a positive one, so none is shadowed by the positive list |
| Tools.Label.Name | main.py:93-97 | the positive label is reported as the string `positive`, the negative label as `negative` and the neutral label as `neutral`, and no label as another's string |
| Tools.LabelNamesDistinct | main.py:93-97 | the three label strings are different from each other |
| Manifest.ToolNames | main.py:17-37 | the declared tool names are listed in declaration order, one per tool descriptor |
| Manifest.FindTool | main.py:15-55 | a lookup by name finds a declared tool with that name, and fails exactly when the name is not among the declared tool names |
| Manifest.McpToolNames | main.py:15-55 | the manifest declares exactly `summarize_feedback` and `sentiment_check`, in that order, each once, each requiring `text` |
| Dispatch.Response.Status | main.py:86-100 | a reply has status 404 exactly when it is a not-found reply, and 200 otherwise |
| Dispatch.Response.Key | main.py:89-100 | a reply's key is `detail` exactly when it is a not-found reply; the keys are `summary`, `sentiment` and `detail` |
| Dispatch.TextParam | main.py:87 | the text argument is the caller's `text` value, or `""` when the key is absent |
| Dispatch.NotFoundDetail | main.py:100 | the detail is `Tool '`, then the submitted name verbatim, then `' not found.` |
| Dispatch.NotFoundDetailRoundTrip | main.py:100 | the submitted name can be read back from the detail |
| Dispatch.NotFoundDetailInjective | main.py:100 | different unknown names get different details |
| Dispatch.Invoke | main.py:81-100 | the reply is not-found, with status 404 and the detail naming the tool, exactly when the name is neither `summarize_feedback` nor `sentiment_check`; the two names run their tools on the text argument |
| Dispatch.NotFoundNamesTool | main.py:100 | a not-found reply names exactly the tool that was asked for |
| Dispatch.InvokeAgreesWithManifest | main.py:15-100 | the names the dispatcher accepts are exactly the tool names the manifest declares; an accepted call gets status 200 and a reply key the manifest declares for that tool |
| Dispatch.SentimentReply | main.py:91-98 | the sentiment string in the reply is `positive` exactly when a positive keyword occurs in the lower-cased text argument, `negative` exactly when none does and a negative keyword occurs, and `neutral` exactly when neither list occurs |
| Dispatch.MissingTextIsEmpty | main.py:86-98 | without a `text` argument the summary is `""` and the sentiment is neutral |
| Dispatch.InvokeReadsOnlyText | main.py:83-98 | two parameter mappings that agree on `text` get the same reply for every tool name |
| Scenarios.AmazingIsPositive | main.py:91-98 | "This is absolutely amazing and fast!" is positive |
| Scenarios.SlowAndBuggyIsNegative | main.py:91-98 | "The app is slow and buggy" is negative: it holds `slow`, and `good` cannot occur because the text has a single `o` |
| Scenarios.BadgeIsNegative | main.py:94-96 | keywords match inside words: "Nice badge" is negative because it contains `bad` |
| Scenarios.MixedIsPositive | main.py:94-97 | "Good but SLOW" holds a negative keyword but is positive, because positive keywords take precedence |
| Scenarios.ExpectedIsNeutral | main.py:93-98 | "It works as expected" holds no keyword and is neutral |
| Text.SingleCharRulesOutDouble | main.py:94-96 | a keyword holding a character twice cannot occur in a text that holds that character only once |

## Left out

- HTTP plumbing is not modelled: the FastAPI application, the route decorators, `JSONResponse`, and the handlers that return constants (`post_manifest`, `get_schema`, `get_insights`, main.py:5, 67-74, 103-105). The reply is modelled as a value with a status and a single key.
- Request validation of `InvokeRequest` (main.py:77-79) is library behaviour and is not modelled. Parameters are a map from strings to strings, so a `text` value that is not a string is not modelled. In Python, `summarize_feedback` returns a list or object of at most 75 items unchanged with status 200. It fails on a longer list or object, where `text[:75] + "..."` raises, and on a number, boolean or null, where `len` raises. `sentiment_check` fails on every non-string, where `.lower()` raises.
- Most of the manifest (main.py:8-64) is static data with no behaviour: the server name, version, description, entry point, protocol, the authentication object `{"type": "none"}`, the resource list, and each tool's description and JSON-schema argument and result types. Only each tool's name, required arguments and result keys are kept.
- Text.Lower: only ASCII `A`-`Z` are lower-cased. Python's `str.lower()` applies full Unicode case mapping. That mapping can change other characters, and for a few characters it changes the length. It also depends on context: under the Final_Sigma rule, `"ΑΣ".lower()` is `"ας"`, while lower-casing `"Α"` and `"Σ"` separately gives `"ασ"`. The labels are unaffected. The only non-ASCII characters that lower-case to ASCII letters are U+212A (to `k`) and U+0130 (to `i` followed by U+0307). No keyword contains `k`, and none has an `i` followed by U+0307.
- Text.LowerAppend: holds for the ASCII lower-casing of the model. Python's context-dependent `str.lower()` does not distribute over concatenation.
- Characters are Unicode scalar values, so `|s|` matches Python's `len` on strings. Surrogate code points, which Python strings may hold, are not modelled.
- The insights resource listing with a `limit` parameter, and the root summary endpoint with a timestamp, belong to other revisions of the server. They are not in `main.py` and are not modelled.

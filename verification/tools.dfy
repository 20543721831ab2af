/**
  The two text tools the server offers: feedback summarisation (truncation to
  a fixed length followed by an ellipsis) and keyword sentiment detection.
 */
module Tools {
  import opened Text

  /** Texts longer than this many characters are truncated. */
  const SummaryLimit: nat := 75
  const Ellipsis: string := "..."

  function Min(a: nat, b: nat): nat {
    if a <= b then a else b
  }

  /** The `summarize_feedback` tool. */
  function Summarize(text: string): (summary: string)
    ensures Min(|text|, SummaryLimit) <= |summary| <= SummaryLimit + |Ellipsis|
    ensures summary[..Min(|text|, SummaryLimit)] == text[..Min(|text|, SummaryLimit)]
    ensures |text| <= SummaryLimit ==> summary == text
    ensures |text| > SummaryLimit ==> |summary| == SummaryLimit + |Ellipsis| && summary[SummaryLimit..] == Ellipsis
  {
    if |text| > SummaryLimit then text[..SummaryLimit] + Ellipsis else text
  }

  /** Two texts have the same summary exactly when they are equal, or both are
      too long and agree on their first `SummaryLimit` characters. */
  lemma SummarizeSameSummary(a: string, b: string)
    ensures Summarize(a) == Summarize(b) <==>
              a == b || (|a| > SummaryLimit && |b| > SummaryLimit && a[..SummaryLimit] == b[..SummaryLimit])
  {
    if Summarize(a) == Summarize(b) && |a| > SummaryLimit && |b| > SummaryLimit {
      assert a[..SummaryLimit] == Summarize(a)[..SummaryLimit];
    }
  }

  /** Summarising a summary changes nothing. */
  lemma SummarizeIdempotent(text: string)
    ensures Summarize(Summarize(text)) == Summarize(text)
  {
    if |text| > SummaryLimit {
      var s := Summarize(text);
      assert s[..SummaryLimit] == text[..SummaryLimit];
    }
  }

  /** The label the sentiment tool reports. */
  datatype Label = Positive | Negative | Neutral {
    /** The label as it appears in the tool's JSON result. */
    function Name(): (n: string)
      ensures n == "positive" <==> this == Positive
      ensures n == "negative" <==> this == Negative
      ensures n == "neutral" <==> this == Neutral
    {
      match this
      case Positive => "positive"
      case Negative => "negative"
      case Neutral => "neutral"
    }
  }

  /** The three labels print differently, so a client can tell them apart. */
  lemma LabelNamesDistinct(a: Label, b: Label)
    requires a.Name() == b.Name()
    ensures a == b
  {
  }

  const PositiveWords: seq<string> := ["good", "great", "excellent", "love", "amazing"]
  const NegativeWords: seq<string> := ["bad", "terrible", "poor", "hate", "slow"]

  /** The reference meaning of "some word of `words` occurs in `text`". */
  ghost predicate MentionsAny(text: string, words: seq<string>) {
    exists w :: w in words && Mentions(text, w)
  }

  /** Python's `any(x in text for x in words)`. */
  function AnyContained(text: string, words: seq<string>): (b: bool)
    ensures b <==> MentionsAny(text, words)
    decreases |words|
  {
    if |words| == 0 then false
    else
      var rest := AnyContained(text, words[1..]);
      assert forall w :: w in words <==> w == words[0] || w in words[1..];
      Contains(text, words[0]) || rest
  }

  /** The `sentiment_check` tool: the text is lower-cased, then a positive
      keyword wins over a negative one, and no keyword at all is neutral. */
  function Sentiment(text: string): (l: Label)
    ensures l == Positive <==> MentionsAny(Lower(text), PositiveWords)
    ensures l == Negative <==> !MentionsAny(Lower(text), PositiveWords) && MentionsAny(Lower(text), NegativeWords)
    ensures l == Neutral <==> !MentionsAny(Lower(text), PositiveWords) && !MentionsAny(Lower(text), NegativeWords)
  {
    var t := Lower(text);
    if AnyContained(t, PositiveWords) then Positive
    else if AnyContained(t, NegativeWords) then Negative
    else Neutral
  }

  /** Case does not matter: a text and its lower case get the same label. */
  lemma SentimentIgnoresCase(text: string)
    ensures Sentiment(text) == Sentiment(Lower(text))
  {
    LowerIdempotent(text);
  }

  /** Every occurrence in `a` is still an occurrence once text is added
      around it. */
  lemma MentionsAnyExtend(a: string, b: string, words: seq<string>)
    requires MentionsAny(a, words)
    ensures MentionsAny(a + b, words)
    ensures MentionsAny(b + a, words)
  {
    var w :| w in words && Mentions(a, w);
    MentionsAppend(a, b, w);
  }

  /** Adding text before or after a positive text keeps it positive, and a
      text that carries any sentiment never becomes neutral. */
  lemma SentimentExtend(a: string, b: string)
    ensures Sentiment(a) == Positive ==> Sentiment(a + b) == Positive && Sentiment(b + a) == Positive
    ensures Sentiment(a) != Neutral ==> Sentiment(a + b) != Neutral && Sentiment(b + a) != Neutral
  {
    LowerAppend(a, b);
    LowerAppend(b, a);
    if MentionsAny(Lower(a), PositiveWords) {
      MentionsAnyExtend(Lower(a), Lower(b), PositiveWords);
    }
    if MentionsAny(Lower(a), NegativeWords) {
      MentionsAnyExtend(Lower(a), Lower(b), NegativeWords);
    }
  }

  /** One occurrence of a positive keyword in the lower-cased text decides
      the label. */
  lemma PositiveByWitness(text: string, w: string, i: int)
    requires w in PositiveWords && OccursAt(Lower(text), w, i)
    ensures Sentiment(text) == Positive
  {
  }

  /** With no positive keyword present, one occurrence of a negative keyword
      decides the label. */
  lemma NegativeByWitness(text: string, w: string, i: int)
    requires !MentionsAny(Lower(text), PositiveWords)
    requires w in NegativeWords && OccursAt(Lower(text), w, i)
    ensures Sentiment(text) == Negative
  {
  }

  /** A text without the letters g, x, v and m holds no positive keyword. */
  lemma NoPositiveKeyword(t: string)
    requires 'g' !in t && 'x' !in t && 'v' !in t && 'm' !in t
    ensures !MentionsAny(t, PositiveWords)
  {
    MissingCharRulesOut(t, "good", 'g');
    MissingCharRulesOut(t, "great", 'g');
    MissingCharRulesOut(t, "excellent", 'x');
    MissingCharRulesOut(t, "love", 'v');
    MissingCharRulesOut(t, "amazing", 'm');
  }

  /** Each positive keyword on its own is positive. */
  lemma PositiveKeywordAlone(w: string)
    requires w in PositiveWords
    ensures Sentiment(w) == Positive
  {
    KeywordsAreLowerCase(w);
    MentionsSelf(w);
  }

  /** Each negative keyword on its own is negative: none of them contains a
      positive keyword, so none is shadowed by the positive list. */
  lemma NegativeKeywordAlone(w: string)
    requires w in NegativeWords
    ensures Sentiment(w) == Negative
  {
    KeywordsAreLowerCase(w);
    MentionsSelf(w);
    NegativeKeywordsHoldNoPositive(w);
  }

  lemma NegativeKeywordsHoldNoPositive(w: string)
    requires w in NegativeWords
    ensures !MentionsAny(w, PositiveWords)
  {
    if w == "bad" {
      NoPositiveKeyword("bad");
    } else if w == "terrible" {
      NoPositiveKeyword("terrible");
    } else if w == "poor" {
      NoPositiveKeyword("poor");
    } else if w == "hate" {
      NoPositiveKeyword("hate");
    } else {
      NoPositiveKeyword("slow");
    }
  }

  lemma KeywordsAreLowerCase(w: string)
    requires w in PositiveWords || w in NegativeWords
    ensures Lower(w) == w
  {
    assert IsLower(w);
    LowerOfLower(w);
  }
}

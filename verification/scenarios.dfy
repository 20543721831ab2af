/**
  Worked examples of the sentiment tool, including the two behaviours that
  are easy to get wrong: keywords match inside longer words, and a positive
  keyword wins over a negative one in the same text.
 */
module Scenarios {
  import opened Text
  import opened Tools

  lemma AmazingIsPositive()
    ensures Sentiment("This is absolutely amazing and fast!") == Positive
  {
    AmazingOccurs("This is absolutely amazing and fast!");
    PositiveByWitness("This is absolutely amazing and fast!", "amazing", 19);
  }

  lemma AmazingOccurs(text: string)
    requires text == "This is absolutely amazing and fast!"
    ensures OccursAt(Lower(text), "amazing", 19)
  {
    assert text[19..26] == "amazing";
    LowerSlice(text, 19, 26);
    assert Lower("amazing") == "amazing";
  }

  /** "slow" is negative; "buggy" holds no keyword, and "good" is ruled
      out because the text has a single 'o'. */
  lemma SlowAndBuggyIsNegative()
    ensures Sentiment("The app is slow and buggy") == Negative
  {
    var t := Lower("The app is slow and buggy");
    assert t == "the app is slow and buggy";
    assert t[11..15] == "slow";
    NoPositiveInBuggy(t);
    NegativeByWitness("The app is slow and buggy", "slow", 11);
  }

  lemma NoPositiveInBuggy(t: string)
    requires t == "the app is slow and buggy"
    ensures !MentionsAny(t, PositiveWords)
  {
    NoGoodInBuggy(t);
    MissingCharRulesOut(t, "great", 'r');
    MissingCharRulesOut(t, "excellent", 'x');
    MissingCharRulesOut(t, "love", 'v');
    MissingCharRulesOut(t, "amazing", 'm');
  }

  lemma NoGoodInBuggy(t: string)
    requires t == "the app is slow and buggy"
    ensures !Mentions(t, "good")
  {
    assert "good"[1] == 'o' && "good"[2] == 'o';
    assert t[..13] == "the app is sl" && t[14..] == "w and buggy";
    SingleCharRulesOutDouble(t, "good", 'o', 13);
  }

  /** Matching is by substring, not by word: "badge" contains "bad". */
  lemma BadgeIsNegative()
    ensures Sentiment("Nice badge") == Negative
  {
    var t := Lower("Nice badge");
    assert t == "nice badge";
    assert t[5..8] == "bad";
    NoPositiveInBadge(t);
    NegativeByWitness("Nice badge", "bad", 5);
  }

  lemma NoPositiveInBadge(t: string)
    requires t == "nice badge"
    ensures !MentionsAny(t, PositiveWords)
  {
    MissingCharRulesOut(t, "good", 'o');
    MissingCharRulesOut(t, "great", 'r');
    MissingCharRulesOut(t, "excellent", 'x');
    MissingCharRulesOut(t, "love", 'l');
    MissingCharRulesOut(t, "amazing", 'm');
  }

  /** A text with a keyword of each kind is positive. */
  lemma MixedIsPositive()
    ensures MentionsAny(Lower("Good but SLOW"), NegativeWords)
    ensures Sentiment("Good but SLOW") == Positive
  {
    var t := Lower("Good but SLOW");
    assert t == "good but slow";
    assert t[0..4] == "good" && t[9..13] == "slow";
    assert OccursAt(t, "slow", 9) && "slow" in NegativeWords;
    PositiveByWitness("Good but SLOW", "good", 0);
  }

  /** No keyword occurs; "poor" is ruled out because the text has a single
      'o'. */
  lemma ExpectedIsNeutral()
    ensures Sentiment("It works as expected") == Neutral
  {
    var t := Lower("It works as expected");
    assert t == "it works as expected";
    NoPositiveInExpected(t);
    NoNegativeInExpected(t);
  }

  lemma NoPositiveInExpected(t: string)
    requires t == "it works as expected"
    ensures !MentionsAny(t, PositiveWords)
  {
    MissingCharRulesOut(t, "good", 'g');
    MissingCharRulesOut(t, "great", 'g');
    MissingCharRulesOut(t, "excellent", 'l');
    MissingCharRulesOut(t, "love", 'l');
    MissingCharRulesOut(t, "amazing", 'm');
  }

  lemma NoNegativeInExpected(t: string)
    requires t == "it works as expected"
    ensures !MentionsAny(t, NegativeWords)
  {
    MissingCharRulesOut(t, "bad", 'b');
    MissingCharRulesOut(t, "terrible", 'b');
    NoPoorInExpected(t);
    MissingCharRulesOut(t, "hate", 'h');
    MissingCharRulesOut(t, "slow", 'l');
  }

  lemma NoPoorInExpected(t: string)
    requires t == "it works as expected"
    ensures !Mentions(t, "poor")
  {
    assert "poor"[1] == 'o' && "poor"[2] == 'o';
    assert t[..4] == "it w" && t[5..] == "rks as expected";
    SingleCharRulesOutDouble(t, "poor", 'o', 4);
  }
}

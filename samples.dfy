/**
 * The tokens of a few sample utterances, and which word sets those tokens
 * belong to, worked out once for the scenario lemmas of the gate and the
 * two detectors.
 */
module Samples {
  import opened Text
  import opened WordSets

  /** A non-empty run of lower-case letters, hyphens and full stops is a
      token with no upper-case letter. */
  lemma PlainWord(w: string)
    requires |w| > 0
    requires forall m :: 0 <= m < |w| ==> 'a' <= w[m] <= 'z' || w[m] == '-' || w[m] == '.'
    ensures IsToken(w)
    ensures forall m :: 0 <= m < |w| ==> !IsUpper(w[m])
  {
  }

  /** The words of a lower-cased transcript that reads "w1 w2". */
  lemma TwoWords(t: string, w1: string, w2: string)
    requires IsToken(w1) && IsToken(w2)
    requires Lower(t) == w1 + " " + w2
    ensures Words(Lower(t)) == [w1, w2]
  {
    var ws := [w1, w2];
    assert ws[1..] == [w2];
    assert JoinWith(ws, ' ') == w1 + " " + w2;
    WordsJoin(ws);
  }

  lemma BackchannelWords()
    ensures Words(Lower("uh-huh ok")) == ["uh-huh", "ok"]
  {
    PlainWord("uh-huh");
    PlainWord("ok");
    LowerOfLower("uh-huh ok");
    assert "uh-huh ok" == "uh-huh" + " " + "ok";
    TwoWords("uh-huh ok", "uh-huh", "ok");
  }

  lemma StopWords()
    ensures Words(Lower("wait stop")) == ["wait", "stop"]
  {
    PlainWord("wait");
    PlainWord("stop");
    LowerOfLower("wait stop");
    assert "wait stop" == "wait" + " " + "stop";
    TwoWords("wait stop", "wait", "stop");
  }

  lemma GoOnWords()
    ensures Words(Lower("Go on")) == ["go", "on"]
  {
    PlainWord("go");
    PlainWord("on");
    assert Lower("Go on") == "go on" by {
      LowerOfLower("o on");
      assert Lower("Go on") == [LowerChar('G')] + Lower("o on");
    }
    TwoWords("Go on", "go", "on");
  }

  /** Punctuation stays attached to its word. */
  lemma PunctuatedWords()
    ensures Words(Lower("ok.")) == ["ok."]
  {
    PlainWord("ok.");
    LowerOfLower("ok.");
    WordsJoinOne("ok.");
    assert JoinWith(["ok."], ' ') == "ok.";
  }

  lemma LowerKnow()
    ensures Lower("I know") == "i know"
  {
    LowerOfLower(" know");
    assert Lower("I know") == [LowerChar('I')] + Lower(" know");
  }

  lemma KnowWords()
    ensures Words(Lower("I know")) == ["i", "know"]
  {
    PlainWord("i");
    PlainWord("know");
    LowerKnow();
    TwoWords("I know", "i", "know");
  }

  lemma BackchannelTokens(ws: seq<string>)
    requires ws == ["uh-huh", "ok"]
    ensures AllIn(ws, IgnoreWords) && !AnyIn(ws, InterruptWords)
  {
    NotInByShape("uh-huh", InterruptWords);
    NotInByShape("ok", InterruptWords);
  }

  lemma StopTokens(ws: seq<string>)
    requires ws == ["wait", "stop"]
    ensures ws[0] in InterruptWords && AnyIn(ws, InterruptWords)
  {
    assert ws[0] in InterruptWords;
  }

  lemma GoOnTokens(ws: seq<string>)
    requires ws == ["go", "on"]
    ensures ws[0] !in IgnoreWords && !AllIn(ws, IgnoreWords) && !AnyIn(ws, InterruptWords)
  {
    NotInByShape("go", IgnoreWords);
    NotInByShape("go", InterruptWords);
    NotInByShape("on", InterruptWords);
  }

  lemma PunctuatedTokens(ws: seq<string>)
    requires ws == ["ok."]
    ensures ws[0] !in IgnoreWords && !AnyIn(ws, InterruptWords)
  {
    NotInByShape("ok.", IgnoreWords);
    NotInByShape("ok.", InterruptWords);
  }

  lemma KnowTokens(ws: seq<string>)
    requires ws == ["i", "know"]
    ensures !AnyIn(ws, InterruptWords)
  {
    NotInByShape("i", InterruptWords);
    NotInByShape("know", InterruptWords);
  }
}

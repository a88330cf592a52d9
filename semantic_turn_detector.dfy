/**
 * `SemanticTurnDetector.should_take_turn` of
 * examples/voice_agents/semantic_turn_detector.py: whether the user's
 * finished utterance should take the turn from the agent.  While the agent
 * speaks, an interrupt word takes the turn, an utterance made only of
 * backchannel words does not, and anything else does; while the agent is
 * silent every utterance takes the turn.
 */
module SemanticTurnDetector {
  import opened Text
  import opened WordSets
  import opened Samples

  /** `should_take_turn(transcript, agent_is_speaking)`. */
  function ShouldTakeTurn(transcript: string, agentIsSpeaking: bool): (r: bool)
    ensures !agentIsSpeaking ==> r
  {
    var text := Strip(Lower(transcript));
    var words := Words(text);
    if agentIsSpeaking then
      if exists w | w in InterruptWords :: w in words then true
      else if AllIn(words, IgnoreWords) then false
      else true
    else true
  }

  /** The detector declines the turn exactly when the agent is speaking and
      every token of the lower-cased transcript is a backchannel word
      (stripping first changes nothing). */
  lemma DeclinesIff(transcript: string, agentIsSpeaking: bool)
    ensures !ShouldTakeTurn(transcript, agentIsSpeaking) <==>
      agentIsSpeaking && AllIn(Words(Lower(transcript)), IgnoreWords)
  {
    var words := Words(Lower(transcript));
    WordsStrip(Lower(transcript));
    AnyInIff(words, InterruptWords);
    if AllIn(words, IgnoreWords) {
      DefaultsDisjoint();
      AllInExcludes(words, IgnoreWords, InterruptWords);
    }
  }

  /** An interrupt word anywhere among the tokens takes the turn. */
  lemma InterruptWordTakesTurn(transcript: string, agentIsSpeaking: bool, n: nat)
    requires n < |Words(Lower(transcript))| && Words(Lower(transcript))[n] in InterruptWords
    ensures ShouldTakeTurn(transcript, agentIsSpeaking)
  {
    WordsStrip(Lower(transcript));
    var words := Words(Lower(transcript));
    assert words[n] in InterruptWords && words[n] in words;
  }

  /** A token outside the backchannel set takes the turn. */
  lemma OtherWordTakesTurn(transcript: string, agentIsSpeaking: bool, n: nat)
    requires n < |Words(Lower(transcript))| && Words(Lower(transcript))[n] !in IgnoreWords
    ensures ShouldTakeTurn(transcript, agentIsSpeaking)
  {
    DeclinesIff(transcript, agentIsSpeaking);
  }

  /** An empty or blank transcript, heard while the agent speaks, is
      declined like a backchannel: `all` over no tokens holds. */
  lemma BlankDeclined(transcript: string)
    requires AllSpace(transcript)
    ensures !ShouldTakeTurn(transcript, true)
  {
    BlankLowerHasNoWords(transcript);
    DeclinesIff(transcript, true);
  }

  /** The decision does not depend on letter case. */
  lemma CaseInsensitive(transcript: string, agentIsSpeaking: bool)
    ensures ShouldTakeTurn(Lower(transcript), agentIsSpeaking) == ShouldTakeTurn(transcript, agentIsSpeaking)
  {
    LowerIdempotent(transcript);
  }

  /** Samples: "uh-huh ok" is declined, "wait stop" and "Go on" take the
      turn, and "ok." takes it too because the full stop stays attached. */
  lemma BackchannelDeclined()
    ensures !ShouldTakeTurn("uh-huh ok", true)
  {
    BackchannelWords();
    BackchannelTokens(Words(Lower("uh-huh ok")));
    DeclinesIff("uh-huh ok", true);
  }

  lemma StopTakesTurn()
    ensures ShouldTakeTurn("wait stop", true)
  {
    StopWords();
    StopTokens(Words(Lower("wait stop")));
    InterruptWordTakesTurn("wait stop", true, 0);
  }

  lemma GoOnTakesTurn()
    ensures ShouldTakeTurn("Go on", true)
  {
    GoOnWords();
    GoOnTokens(Words(Lower("Go on")));
    DeclinesIff("Go on", true);
  }

  lemma PunctuatedBackchannelTakesTurn()
    ensures ShouldTakeTurn("ok.", true)
  {
    PunctuatedWords();
    PunctuatedTokens(Words(Lower("ok.")));
    DeclinesIff("ok.", true);
  }
}

/**
 * How the three detectors relate when they use the default word sets.
 * The gate's transcript decision and `should_take_turn` for a speaking
 * agent are the same function; `on_user_message` drops exactly the
 * messages `should_take_turn` declines, although it interrupts on more of
 * the others (any substring match, and also while the agent is silent).
 */
module Agreement {
  import opened Text
  import opened WordSets
  import Gate
  import SemanticTurnDetector
  import RealtimeTurnDetector

  /** An armed gate interrupts on a transcript exactly when the semantic
      detector, told the agent is speaking, takes the turn. */
  lemma GateMatchesSemantic(transcript: string)
    ensures Gate.TranscriptInterrupts(transcript, IgnoreWords, InterruptWords) ==
      SemanticTurnDetector.ShouldTakeTurn(transcript, true)
  {
    var words := Words(Lower(transcript));
    SemanticTurnDetector.DeclinesIff(transcript, true);
    if AllIn(words, IgnoreWords) {
      DefaultsDisjoint();
      AllInExcludes(words, IgnoreWords, InterruptWords);
    }
  }

  /** The realtime agent drops a message exactly when the semantic detector
      declines the turn. */
  lemma RealtimeDropsWhatSemanticDeclines(message: string, isSpeaking: bool)
    ensures RealtimeTurnDetector.Classify(message, isSpeaking) == RealtimeTurnDetector.Suppress <==>
      !SemanticTurnDetector.ShouldTakeTurn(message, isSpeaking)
  {
    RealtimeTurnDetector.SuppressIff(message, isSpeaking);
    SemanticTurnDetector.DeclinesIff(message, isSpeaking);
  }

  /** An armed gate given a transcript, and the realtime agent given the
      same text while the agent speaks: the gate disarms silently exactly
      when the agent drops the message. */
  lemma GateMatchesRealtime(st: Gate.GateState, transcript: string)
    requires st.pending
    ensures Gate.Step(st, Gate.SttFinal(transcript), IgnoreWords, InterruptWords).interrupts == 0 <==>
      RealtimeTurnDetector.Classify(transcript, true) == RealtimeTurnDetector.Suppress
  {
    GateMatchesSemantic(transcript);
    RealtimeDropsWhatSemanticDeclines(transcript, true);
  }
}

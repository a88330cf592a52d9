/**
 * `SemanticInterruptAgent.on_user_message` of
 * examples/voice_agents/realtime_turn_detector.py: a message that mentions
 * an interrupt word stops the agent and is passed on; a message made only
 * of backchannel words, heard while the agent speaks, is dropped; any
 * other message is passed on.  Interrupt words are looked for as
 * substrings of the lower-cased message, backchannel words as whole tokens.
 */
module RealtimeTurnDetector {
  import opened Wrappers
  import opened Text
  import opened WordSets
  import opened AgentSession
  import opened Samples

  /** What happens to one message. */
  datatype Verdict =
    | HardStop     // the session is interrupted and the message passed on
    | Suppress     // the message is dropped
    | PassThrough  // the message is passed on

  /** `any(word in text for word in INTERRUPT_WORDS)`: some interrupt word
      occurs anywhere in `text`, inside a longer word included. */
  predicate MentionsInterruptWord(text: string)
    ensures MentionsInterruptWord(text) ==> |text| >= 2
  {
    exists w | w in InterruptWords :: Contains(w, text)
  }

  /** The decision `on_user_message` takes, given `session.is_speaking`. */
  function Classify(message: string, isSpeaking: bool): (v: Verdict)
    ensures v == Suppress ==> isSpeaking
  {
    var text := Lower(message);
    if MentionsInterruptWord(text) then HardStop
    else if isSpeaking && AllIn(Words(text), IgnoreWords) then Suppress
    else PassThrough
  }

  /** `on_user_message(message, session)`: interrupts the session on a hard
      stop, and returns the message unless it is suppressed. */
  method OnUserMessage(message: string, session: Session) returns (r: Option<string>)
    modifies session
    ensures var v := Classify(message, old(session.isSpeaking));
      r == (if v == Suppress then None else Some(message)) &&
      session.interrupts == old(session.interrupts) + (if v == HardStop then 1 else 0)
    ensures Classify(message, old(session.isSpeaking)) != HardStop ==> unchanged(session)
  {
    var text := Lower(message);
    if MentionsInterruptWord(text) {
      session.Interrupt();
      return Some(message);
    }
    if session.isSpeaking && AllIn(Words(text), IgnoreWords) {
      return None;
    }
    return Some(message);
  }

  /** A hard stop happens exactly when some interrupt word occurs somewhere
      in the lower-cased message, whether or not the agent is speaking. */
  lemma HardStopIff(message: string, isSpeaking: bool)
    ensures Classify(message, isSpeaking) == HardStop <==>
      exists w, k :: w in InterruptWords && OccursAt(w, Lower(message), k)
  {
    var text := Lower(message);
    assert Classify(message, isSpeaking) == HardStop <==> MentionsInterruptWord(text);
    if MentionsInterruptWord(text) {
      var w :| w in InterruptWords && Contains(w, text);
      ContainsIff(w, text);
      var k :| OccursAt(w, text, k);
      assert w in InterruptWords && OccursAt(w, Lower(message), k);
      assert exists w', k' :: w' in InterruptWords && OccursAt(w', Lower(message), k');
    } else {
      forall w, k | w in InterruptWords ensures !OccursAt(w, text, k) {
        ContainsIff(w, text);
      }
    }
  }

  /** An interrupt word standing as a token of its own is also a hard stop. */
  lemma InterruptTokenHardStops(message: string, isSpeaking: bool, n: nat)
    requires n < |Words(Lower(message))| && Words(Lower(message))[n] in InterruptWords
    ensures Classify(message, isSpeaking) == HardStop
  {
    var text := Lower(message);
    WordsFromOccur(text, 0, n);
    var k :| OccursAt(Words(text)[n], text, k);
    HardStopIff(message, isSpeaking);
  }

  /** Letters that some interrupt word holds and no backchannel word does. */
  predicate FreeOfMarkers(t: string) {
    forall i :: 0 <= i < |t| ==> t[i] !in {'n', 's', 'w', 'd'}
  }

  /** No default interrupt word occurs inside a default backchannel word:
      each holds one of the letters n, s, w, d, which none of those does. */
  lemma NoInterruptInsideBackchannel(w: string, t: string, j: int)
    requires w in InterruptWords && t in IgnoreWords
    ensures !OccursAt(w, t, j)
  {
    assert FreeOfMarkers(t);
    var p: nat := if w == "cancel" then 2 else if w == "hold" then 3 else 0;
    assert p < |w| && w[p] in {'n', 's', 'w', 'd'};
    if 0 <= j && j + |w| <= |t| {
      assert t[j..j + |w|][p] == t[j + p];
    }
  }

  /** A message whose tokens are all backchannel words mentions no
      interrupt word. */
  lemma BackchannelMentionsNothing(text: string)
    requires AllIn(Words(text), IgnoreWords)
    ensures !MentionsInterruptWord(text)
  {
    var ws := Words(text);
    forall w | w in InterruptWords ensures !Contains(w, text) {
      ContainsIff(w, text);
      if Contains(w, text) {
        var k :| OccursAt(w, text, k);
        assert IsToken(w);
        OccurrenceInWord(w, text, 0, k);
        var n, j :| 0 <= n < |ws| && OccursAt(w, ws[n], j);
        NoInterruptInsideBackchannel(w, ws[n], j);
      }
    }
  }

  /** A message is dropped exactly when the agent is speaking and every
      token is a backchannel word: such a message can never mention an
      interrupt word, since no interrupt word holds whitespace or fits
      inside a backchannel word. */
  lemma SuppressIff(message: string, isSpeaking: bool)
    ensures Classify(message, isSpeaking) == Suppress <==>
      isSpeaking && AllIn(Words(Lower(message)), IgnoreWords)
  {
    if AllIn(Words(Lower(message)), IgnoreWords) {
      BackchannelMentionsNothing(Lower(message));
    }
  }

  /** The substring test fires inside longer words: "I know" stops the
      agent, though none of its tokens is an interrupt word. */
  lemma KnowHardStops(isSpeaking: bool)
    ensures Classify("I know", isSpeaking) == HardStop
    ensures !AnyIn(Words(Lower("I know")), InterruptWords)
  {
    KnowWords();
    KnowTokens(Words(Lower("I know")));
    assert Contains("no", Lower("I know")) by {
      LowerKnow();
      assert Contains("no", "i know");
    }
  }

  /** An interrupt word stops the session even while the agent is silent. */
  lemma StopWhileSilent()
    ensures Classify("stop", false) == HardStop
  {
    assert Lower("stop") == "stop";
    assert Contains("stop", "stop");
  }

  /** An empty message heard while the agent speaks is dropped. */
  lemma EmptyWhileSpeaking()
    ensures Classify("", true) == Suppress
  {
    assert Words("") == [];
  }

  /** A backchannel heard while the agent speaks is dropped; the same words
      while it is silent are passed on. */
  lemma BackchannelSuppressed()
    ensures Classify("uh-huh ok", true) == Suppress
    ensures Classify("uh-huh ok", false) == PassThrough
  {
    BackchannelWords();
    BackchannelTokens(Words(Lower("uh-huh ok")));
    BackchannelMentionsNothing(Lower("uh-huh ok"));
  }
}

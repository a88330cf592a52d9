/**
 * The backchannel ("ignore") and interrupt word sets, and the two tests the
 * detectors run over a list of tokens.  The defaults are the ones written
 * out in semantic_turn_detector.py and realtime_turn_detector.py, and the
 * default values of the environment variables read by interrupt_gate.py.
 */
module WordSets {

  /** Short acknowledgements that must not cut the agent off. */
  const IgnoreWords: set<string> := {"yeah", "ok", "okay", "hmm", "uh-huh", "right"}

  /** Words that always stop the agent. */
  const InterruptWords: set<string> := {"stop", "wait", "no", "cancel", "hold"}

  /** `any(w in words for w in tokens)`. */
  predicate AnyIn(tokens: seq<string>, words: set<string>)
    ensures AnyIn(tokens, words) ==> |tokens| > 0
  {
    exists n :: 0 <= n < |tokens| && tokens[n] in words
  }

  /** `all(w in words for w in tokens)`; true of the empty list. */
  predicate AllIn(tokens: seq<string>, words: set<string>)
    ensures |tokens| == 0 ==> AllIn(tokens, words)
  {
    forall n :: 0 <= n < |tokens| ==> tokens[n] in words
  }

  /** No default word is both a backchannel and an interrupt word. */
  lemma DefaultsDisjoint()
    ensures IgnoreWords * InterruptWords == {}
  {
  }

  /** Asking, word by word of the set, whether it is among the tokens asks
      the same question as `AnyIn`. */
  lemma AnyInIff(tokens: seq<string>, words: set<string>)
    ensures AnyIn(tokens, words) <==> exists w :: w in words && w in tokens
  {
    if exists w :: w in words && w in tokens {
      var w :| w in words && w in tokens;
      var n :| 0 <= n < |tokens| && tokens[n] == w;
    }
  }

  /** Tokens drawn only from one set share none with a disjoint set. */
  lemma AllInExcludes(tokens: seq<string>, a: set<string>, b: set<string>)
    ensures a * b == {} && AllIn(tokens, a) ==> !AnyIn(tokens, b)
  {
    if a * b == {} && AllIn(tokens, a) {
      forall n | 0 <= n < |tokens| ensures tokens[n] !in b {
        assert tokens[n] in a;
        assert tokens[n] !in a * b;
      }
    }
  }

  /** A word with no member of `words` of the same length and first
      letter is not in `words`. */
  lemma NotInByShape(t: string, words: set<string>)
    requires |t| > 0
    requires forall w :: w in words ==> |w| != |t| || (|w| > 0 && w[0] != t[0])
    ensures t !in words
  {
  }
}

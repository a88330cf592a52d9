# Interrupt decisions of a voice agent, in Dafny

This project models three small pieces of logic from the voice-agent
examples. Each one decides whether something the user said should cut off
an agent that is speaking.

- **`InterruptGate`** (`examples/voice_agents/interrupt_gate.py`) is a
  two-field state machine with fields `pending` and `vad_time`.
  - A voice-activity pulse arms it, but only while the session is speaking.
  - The next final transcript resolves the armed episode. A transcript with
    an interrupt word, or with any word outside the backchannel set, calls
    `session.interrupt()`. A transcript made only of backchannel words
    disarms silently.
  - A validation timeout on an armed gate always interrupts.
- **`SemanticTurnDetector.should_take_turn`**
  (`examples/voice_agents/semantic_turn_detector.py`) is the same
  classification written as a pure boolean function. While the agent is
  silent it always takes the turn.
- **`SemanticInterruptAgent.on_user_message`**
  (`examples/voice_agents/realtime_turn_detector.py`) filters messages.
  - It looks for interrupt words as *substrings* of the lower-cased message.
    On a hit it interrupts the session and passes the message on.
  - It drops a message made only of backchannel words when it arrives while
    the agent speaks.
  - It passes every other message on unchanged.

The modules:

- `Text` models the Python string operations the code uses:
  - `isspace` as `split()` and `strip()` use it;
  - ASCII `lower()`;
  - `strip()`, `split()`, `split(",")` and `",".join`;
  - the substring test `w in text`.

  Its lemmas connect them: `split` undoes `" ".join`, `split(",")` undoes
  `",".join`, stripping does not change the tokens, and a substring without
  whitespace always lies inside one token.
- `WordSets` holds the two default word sets and the `any`/`all`
  membership tests.
- `AgentSession` models the host session as the class `Session`. It has the
  speaking flag and a counter of `interrupt()` calls.
- `Gate` models the gate twice:
  - as the class `InterruptGate`, whose methods update `pending` and
    `vadTime` in place and call the session;
  - as the pure transition function `Step` and its fold `Run` over event
    sequences.

  Each method's postcondition ties it to `Step`. The properties of whole
  event sequences are proved about `Run`.
- `SemanticTurnDetector` and `RealtimeTurnDetector` model the two
  detectors.
- `Samples` works out the tokens of a few sample utterances.
- `Agreement` relates the three detectors:
  - on the default word sets, the gate and `should_take_turn` make the same
    decision;
  - the realtime agent drops exactly the messages `should_take_turn`
    declines.

The model follows the code as written, including behaviours a reader might
expect to be otherwise:

- A second arming pulse while already armed overwrites `vad_time`.
  Re-arming is not idempotent.
- `session.interrupt()` is called *before* `pending` is cleared.
- No punctuation is stripped. `"ok."` is not a backchannel, so it takes the
  turn.
- The classifiers are two-valued. There is no separate "pass through"
  verdict in the gate or in `should_take_turn`.
- An empty or blank transcript counts as a backchannel, because `all` over
  no tokens holds.
- `on_user_message` interrupts on an interrupt word even while the agent is
  silent. It matches inside longer words, so "I know" stops the agent
  because it contains "no".

## Model

| member | source | states |
|---|---|---|
| Gate.ParseWordList | examples/voice_agents/interrupt_gate.py:4-5 | `set(value.split(","))` is never empty, and none of its entries contains a comma |
| Gate.ParseJoined | examples/voice_agents/interrupt_gate.py:4-5 | parsing a comma-joined list of comma-free entries gives back exactly the set of those entries |
| Gate.DefaultIgnoreList | examples/voice_agents/interrupt_gate.py:4 | the default `IGNORE_WORDS` value parses to the six backchannel words |
| Gate.DefaultInterruptList | examples/voice_agents/interrupt_gate.py:5 | the default `INTERRUPT_WORDS` value parses to the five interrupt words |
| Gate.SpacedEntryNeverMatches | examples/voice_agents/interrupt_gate.py:4-5 | a configured entry containing whitespace, such as " wait" from "stop, wait", can never equal a token of any transcript |
| Gate.InterruptGate.constructor | examples/voice_agents/interrupt_gate.py:10-13 | a new gate keeps its session, is not pending and has no VAD time |
| Gate.InterruptGate.OnVad | examples/voice_agents/interrupt_gate.py:15-20 | while the session speaks it arms the gate and records `now`, overwriting any earlier time; otherwise both fields keep their old values; the new state is the one `Step` gives |
| Gate.InterruptGate.OnSttFinal | examples/voice_agents/interrupt_gate.py:22-40 | afterwards the gate is never pending and `vadTime` is unchanged; exactly one interrupt call is made when the gate was pending and the transcript calls for one, and otherwise the session is left untouched; agrees with `Step` |
| Gate.InterruptGate.OnTimeout | examples/voice_agents/interrupt_gate.py:42-46 | afterwards the gate is never pending and `vadTime` is unchanged; exactly one interrupt call is made when the gate was pending, and otherwise the session is left untouched; agrees with `Step` |
| Gate.TranscriptInterrupts | examples/voice_agents/interrupt_gate.py:26-40 | an interrupt word among the lower-cased tokens always means interrupt; when the two sets are disjoint, the gate interrupts exactly when some token is outside the ignore set |
| Gate.BlankTranscriptDisarms | examples/voice_agents/interrupt_gate.py:26-36 | an empty or whitespace-only transcript never interrupts, whatever the word sets |
| Gate.Step | examples/voice_agents/interrupt_gate.py:15-46 | one event makes at most one interrupt call, and only from a pending gate on a transcript or timeout; transcripts and timeouts always leave the gate disarmed with `vadTime` kept; from an idle gate they change nothing; a pulse while speaking arms with the new time, and a pulse while silent changes nothing |
| Gate.InterruptsBoundedByArming | examples/voice_agents/interrupt_gate.py:15-46 | over any event sequence, interrupt calls never outnumber the arming pulses plus one for an episode already armed at the start |
| Gate.EpisodeResolvesOnce | examples/voice_agents/interrupt_gate.py:22-46 | with no new arming pulse, at most one interrupt call is made and `vadTime` never changes; the episode is over once a transcript or timeout arrives, and until then nothing changes |
| Gate.IdleIgnoresEvents | examples/voice_agents/interrupt_gate.py:17-44 | an idle gate stays idle with no interrupt call through transcripts, timeouts and pulses that arrive while the agent is silent |
| Gate.ReArmOverwrites | examples/voice_agents/interrupt_gate.py:19-20 | two arming pulses in a row leave the gate armed with the later time |
| Gate.TimeoutAfterArming | examples/voice_agents/interrupt_gate.py:19-46 | arming followed by a timeout makes exactly one interrupt call, whatever follows without another arming pulse |
| Gate.RunPair | examples/voice_agents/interrupt_gate.py:15-46 | two events in a row compose as two steps |
| Gate.ArmedTranscript | examples/voice_agents/interrupt_gate.py:15-40 | arming and then a transcript disarms the gate, keeps the time, and makes one interrupt call exactly when the transcript calls for one |
| Gate.BackchannelDoesNotInterrupt | examples/voice_agents/interrupt_gate.py:33-36 | "uh-huh ok" does not interrupt under the default sets |
| Gate.BackchannelDisarms | examples/voice_agents/interrupt_gate.py:33-36 | armed, then "uh-huh ok": disarmed, no interrupt call |
| Gate.StopInterrupts | examples/voice_agents/interrupt_gate.py:28-31 | "wait stop" interrupts under the default sets |
| Gate.InterruptWordsInterrupt | examples/voice_agents/interrupt_gate.py:28-31 | armed, then "wait stop": disarmed, one interrupt call |
| Gate.GoOnInterrupts | examples/voice_agents/interrupt_gate.py:38-40 | "Go on" interrupts, because it contains words outside both sets |
| Gate.RealContentInterrupts | examples/voice_agents/interrupt_gate.py:38-40 | armed, then "Go on": disarmed, one interrupt call |
| Gate.BackchannelEpisode | examples/voice_agents/interrupt_gate.py:10-40 | the gate object on a speaking session, after a pulse and "uh-huh ok", has made no interrupt call and is not pending |
| Gate.OutOfOrderEvents | examples/voice_agents/interrupt_gate.py:15-46 | a transcript and a timeout reaching an idle gate object make no interrupt call and leave the session speaking, and a later pulse still arms the gate |
| Gate.TimeoutEpisode | examples/voice_agents/interrupt_gate.py:10-46 | the gate object after a pulse and two timeouts has made exactly one interrupt call and is not pending |
| AgentSession.Session.Interrupt | examples/voice_agents/interrupt_gate.py:29 | each `session.interrupt()` call adds one to the count of calls |
| WordSets.AnyIn | examples/voice_agents/interrupt_gate.py:28 | `any(w in words for w in tokens)`, which is false of an empty token list |
| WordSets.AllIn | examples/voice_agents/interrupt_gate.py:33 | `all(w in words for w in tokens)`, which is true of an empty token list |
| WordSets.DefaultsDisjoint | examples/voice_agents/semantic_turn_detector.py:3-4 | no default word is both a backchannel and an interrupt word |
| WordSets.AnyInIff | examples/voice_agents/semantic_turn_detector.py:14 | asking word by word of the interrupt set whether it is among the tokens answers the same question as asking token by token |
| WordSets.AllInExcludes | examples/voice_agents/semantic_turn_detector.py:14-18 | tokens drawn only from one set include none of a disjoint set |
| SemanticTurnDetector.ShouldTakeTurn | examples/voice_agents/semantic_turn_detector.py:8-22 | a silent agent always gives up the turn |
| SemanticTurnDetector.DeclinesIff | examples/voice_agents/semantic_turn_detector.py:3-22 | the turn is declined exactly when the agent speaks and every token of the lower-cased transcript is a backchannel word |
| SemanticTurnDetector.InterruptWordTakesTurn | examples/voice_agents/semantic_turn_detector.py:9-15 | an interrupt word among the tokens takes the turn |
| SemanticTurnDetector.OtherWordTakesTurn | examples/voice_agents/semantic_turn_detector.py:17-20 | a token outside the backchannel set takes the turn |
| SemanticTurnDetector.BlankDeclined | examples/voice_agents/semantic_turn_detector.py:9-18 | an empty or blank transcript is declined while the agent speaks |
| SemanticTurnDetector.CaseInsensitive | examples/voice_agents/semantic_turn_detector.py:9 | a transcript and its lower-cased form get the same answer |
| SemanticTurnDetector.BackchannelDeclined | examples/voice_agents/semantic_turn_detector.py:17-18 | "uh-huh ok" is declined while the agent speaks |
| SemanticTurnDetector.StopTakesTurn | examples/voice_agents/semantic_turn_detector.py:14-15 | "wait stop" takes the turn |
| SemanticTurnDetector.GoOnTakesTurn | examples/voice_agents/semantic_turn_detector.py:20 | "Go on" takes the turn |
| SemanticTurnDetector.PunctuatedBackchannelTakesTurn | examples/voice_agents/semantic_turn_detector.py:9-20 | "ok." takes the turn, because the full stop is not stripped |
| RealtimeTurnDetector.MentionsInterruptWord | examples/voice_agents/realtime_turn_detector.py:22 | `any(word in text for word in INTERRUPT_WORDS)`; a text that passes holds at least two characters, the length of the shortest interrupt word |
| RealtimeTurnDetector.Classify | examples/voice_agents/realtime_turn_detector.py:20-30 | a message is only ever dropped while the agent speaks |
| RealtimeTurnDetector.OnUserMessage | examples/voice_agents/realtime_turn_detector.py:19-30 | returns nothing for a dropped message and the original message otherwise; calls interrupt once on a hard stop, and otherwise leaves the session untouched |
| RealtimeTurnDetector.HardStopIff | examples/voice_agents/realtime_turn_detector.py:20-24 | a hard stop happens exactly when some interrupt word occurs somewhere in the lower-cased message, speaking or not |
| RealtimeTurnDetector.InterruptTokenHardStops | examples/voice_agents/realtime_turn_detector.py:20-24 | an interrupt word standing as a token of its own is a hard stop |
| RealtimeTurnDetector.NoInterruptInsideBackchannel | examples/voice_agents/realtime_turn_detector.py:11-12 | no default interrupt word occurs anywhere inside a default backchannel word |
| RealtimeTurnDetector.BackchannelMentionsNothing | examples/voice_agents/realtime_turn_detector.py:22-26 | a text whose tokens are all backchannel words contains no interrupt word as a substring |
| RealtimeTurnDetector.SuppressIff | examples/voice_agents/realtime_turn_detector.py:20-28 | a message is dropped exactly when the agent speaks and every token is a backchannel word |
| RealtimeTurnDetector.KnowHardStops | examples/voice_agents/realtime_turn_detector.py:22-24 | "I know" is a hard stop even though none of its tokens is an interrupt word |
| RealtimeTurnDetector.StopWhileSilent | examples/voice_agents/realtime_turn_detector.py:22-24 | "stop" is a hard stop while the agent is silent |
| RealtimeTurnDetector.EmptyWhileSpeaking | examples/voice_agents/realtime_turn_detector.py:20-28 | an empty message is dropped while the agent speaks |
| RealtimeTurnDetector.BackchannelSuppressed | examples/voice_agents/realtime_turn_detector.py:26-30 | "uh-huh ok" is dropped while the agent speaks and passed on while it is silent |
| Agreement.GateMatchesSemantic | examples/voice_agents/interrupt_gate.py:26-40 | on the default sets, an armed gate interrupts on a transcript exactly when `should_take_turn(transcript, True)` holds |
| Agreement.RealtimeDropsWhatSemanticDeclines | examples/voice_agents/realtime_turn_detector.py:20-30 | the realtime agent drops a message exactly when `should_take_turn` declines it |
| Agreement.GateMatchesRealtime | examples/voice_agents/interrupt_gate.py:26-40 | an armed gate disarms silently on a transcript exactly when the realtime agent, with the agent speaking, drops it |
| Text.IsSpace | examples/voice_agents/semantic_turn_detector.py:9-11 | the characters `str.isspace()` accepts, which `split()` and `strip()` use; space, tab, newline and carriage return are whitespace, while ASCII letters, digits, `-` and `.` are not |
| Text.LowerChar | examples/voice_agents/semantic_turn_detector.py:9 | lowercasing a character leaves no ASCII capital, maps each capital to its small letter, changes nothing else, and keeps whitespace whitespace |
| Text.Lower | examples/voice_agents/semantic_turn_detector.py:9 | `lower()` keeps the length and lowercases character by character |
| Text.LowerIdempotent | examples/voice_agents/semantic_turn_detector.py:9 | lowercasing twice is the same as lowercasing once |
| Text.Words | examples/voice_agents/semantic_turn_detector.py:11 | every piece that `split()` produces is a non-empty run of non-whitespace characters |
| Text.WordsEmpty | examples/voice_agents/semantic_turn_detector.py:11 | `split()` gives no tokens exactly when the string is empty or whitespace only |
| Text.WordsJoin | examples/voice_agents/semantic_turn_detector.py:11 | `" ".join(ws).split() == ws` for every list of tokens |
| Text.Strip | examples/voice_agents/semantic_turn_detector.py:9 | `strip()` is a slice of the string that is surrounded only by whitespace and neither starts nor ends with whitespace |
| Text.WordsStrip | examples/voice_agents/semantic_turn_detector.py:9-11 | stripping before splitting does not change the tokens |
| Text.SplitOn | examples/voice_agents/interrupt_gate.py:4-5 | `split(",")` never gives an empty list, and no piece contains the separator |
| Text.SplitJoin | examples/voice_agents/interrupt_gate.py:4-5 | `",".join(parts).split(",") == parts` when no part contains a comma |
| Text.Contains | examples/voice_agents/realtime_turn_detector.py:22 | `w in text`, scanned from the front; a prefix is always found, and a hit needs a text at least as long as `w` |
| Text.ContainsIff | examples/voice_agents/realtime_turn_detector.py:22 | `w in text` holds exactly when `w` occurs at some position of `text` |
| Text.OccurrenceInWord | examples/voice_agents/realtime_turn_detector.py:22-26 | an occurrence of a whitespace-free string lies inside a single token of the text |
| Text.WordsFromOccur | examples/voice_agents/realtime_turn_detector.py:22-26 | every token of a text occurs in that text |

## Left out

- The environment is not read. The gate's word sets are constructor
  parameters. `ParseWordList` models how the module turns an environment
  value into a set, and the defaults are proved to parse to the constant
  sets.
- `INTERRUPTION_VALIDATION_MS` (`interrupt_gate.py:6`) is never used by the
  gate. No timer exists in the code, so the timeout is an event like the
  others.
- `time.time() * 1000` is a float clock. The model reads it as an integer
  parameter `now` passed to `OnVad`.
- `async`/`await` is not modelled. Events are sequential method calls, so
  the model has no race between a timer and a transcript. The code awaits
  `session.interrupt()` while `pending` is still true, so under asyncio an
  `on_timeout` that runs during that await would interrupt a second time.
  The at-most-once results `InterruptsBoundedByArming` and
  `EpisodeResolvesOnce` hold only for sequential delivery.
- `lower()` is ASCII only. Unicode letters outside A-Z keep their case.
  Whitespace is Python's full `isspace` set.
- The `MultilingualModel` base class (`semantic_turn_detector.py:7`) is
  foreign model code, so its behaviour is not modelled.
- The LiveKit plumbing in `realtime_turn_detector.py` is I/O and framework
  wiring and is not modelled: `entrypoint`, `prewarm`, `AgentServer`, the
  session configuration, logging and `cli.run_app`.
- `SemanticInterruptAgent` has no state of its own, so `on_user_message` is
  the module-level method `OnUserMessage`. It takes the session as a
  parameter.
- AgentSession.Session.Interrupt: does not say what the host does to
  `is_speaking` after an interrupt. That is host behaviour outside the
  code, so the model leaves it open.
- The session is reduced to its speaking flag and a count of `interrupt()`
  calls. It has no audio output.

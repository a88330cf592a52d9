/**
 * The interrupt gate of examples/voice_agents/interrupt_gate.py: a
 * voice-activity pulse arms it while the agent speaks, and the next final
 * transcript or validation timeout resolves the armed episode, either by
 * calling the session's interrupt action or by silently disarming.
 *
 * The gate is modelled twice, as the source is read two ways: as the class
 * `InterruptGate`, whose methods update `pending` and `vadTime` in place and
 * call the session, and as the pure transition function `Step` with its fold
 * `Run` over a sequence of events, about which the properties of whole
 * event sequences are proved.  Every method's postcondition ties it to
 * `Step`, so those properties hold of any sequence of method calls.
 */
module Gate {
  import opened Wrappers
  import opened Text
  import opened WordSets
  import opened AgentSession
  import opened Samples

  // ---------------------------------------------------------------------
  // Configuration (the module-level constants of interrupt_gate.py)

  /** Default value of the `IGNORE_WORDS` environment variable. */
  const IgnoreWordsDefault: string := "yeah,ok,okay,hmm,uh-huh,right"
  /** Default value of the `INTERRUPT_WORDS` environment variable. */
  const InterruptWordsDefault: string := "stop,wait,no,cancel,hold"

  /** `set(value.split(","))`: the word set held in one environment value.
      Entries are taken as they are, without trimming. */
  function ParseWordList(value: string): (r: set<string>)
    ensures r != {}
    ensures forall w :: w in r ==> ',' !in w
  {
    var parts := SplitOn(value, ',');
    var r := set w | w in parts;
    assert parts[0] in r;
    r
  }

  /** Parsing a comma-joined list gives back the set of its entries. */
  lemma ParseJoined(parts: seq<string>)
    requires |parts| >= 1
    requires forall n :: 0 <= n < |parts| ==> ',' !in parts[n]
    ensures ParseWordList(JoinWith(parts, ',')) == set w | w in parts
  {
    SplitJoin(parts, ',');
  }

  /** The default environment values spell out the default word sets. */
  lemma DefaultIgnoreList()
    ensures ParseWordList(IgnoreWordsDefault) == IgnoreWords
  {
    assert IgnoreWordsDefault == "yeah" + ("," + ("ok" + ("," + ("okay" + ("," + ("hmm" + ("," + ("uh-huh" + ("," + "right")))))))));
    ParseSix("yeah", "ok", "okay", "hmm", "uh-huh", "right");
  }

  lemma DefaultInterruptList()
    ensures ParseWordList(InterruptWordsDefault) == InterruptWords
  {
    assert InterruptWordsDefault == "stop" + ("," + ("wait" + ("," + ("no" + ("," + ("cancel" + ("," + "hold")))))));
    ParseFive("stop", "wait", "no", "cancel", "hold");
  }

  /** A comma-joined list of five entries. */
  lemma ParseFive(a: string, b: string, c: string, d: string, e: string)
    requires ',' !in a && ',' !in b && ',' !in c && ',' !in d && ',' !in e
    ensures ParseWordList(a + ("," + (b + ("," + (c + ("," + (d + ("," + e)))))))) == {a, b, c, d, e}
  {
    var p5 := [a, b, c, d, e];
    JoinFive(a, b, c, d, e);
    ParseJoined(p5);
    assert (set w | w in p5) == {a, b, c, d, e};
  }

  /** A comma-joined list of six entries. */
  lemma ParseSix(a: string, b: string, c: string, d: string, e: string, f: string)
    requires ',' !in a && ',' !in b && ',' !in c && ',' !in d && ',' !in e && ',' !in f
    ensures ParseWordList(a + ("," + (b + ("," + (c + ("," + (d + ("," + (e + ("," + f)))))))))) ==
      {a, b, c, d, e, f}
  {
    var p6 := [a, b, c, d, e, f];
    JoinSix(a, b, c, d, e, f);
    ParseJoined(p6);
    assert (set w | w in p6) == {a, b, c, d, e, f};
  }

  lemma JoinSix(a: string, b: string, c: string, d: string, e: string, f: string)
    ensures JoinWith([a, b, c, d, e, f], ',') ==
      a + ("," + (b + ("," + (c + ("," + (d + ("," + (e + ("," + f)))))))))
  {
    var p6 := [a, b, c, d, e, f];
    JoinFive(b, c, d, e, f);
    assert p6[1..] == [b, c, d, e, f];
  }

  lemma JoinFive(a: string, b: string, c: string, d: string, e: string)
    ensures JoinWith([a, b, c, d, e], ',') == a + ("," + (b + ("," + (c + ("," + (d + ("," + e)))))))
  {
    var p5 := [a, b, c, d, e];
    var p4 := [b, c, d, e];
    var p3 := [c, d, e];
    var p2 := [d, e];
    assert p2[1..] == [e];
    assert JoinWith(p2, ',') == d + ("," + e);
    assert p3[1..] == p2;
    assert JoinWith(p3, ',') == c + ("," + JoinWith(p2, ','));
    assert p4[1..] == p3;
    assert JoinWith(p4, ',') == b + ("," + JoinWith(p3, ','));
    assert p5[1..] == p4;
  }

  /** A configured entry that holds whitespace (as `"stop, wait"` yields
      `" wait"`) can never match a token of a transcript. */
  lemma SpacedEntryNeverMatches(w: string, k: nat, transcript: string)
    requires k < |w| && IsSpace(w[k])
    ensures w !in Words(Lower(transcript))
  {
  }

  /** An empty or blank transcript disarms without interrupting, whatever
      the word sets: `all` over no tokens holds. */
  lemma BlankTranscriptDisarms(transcript: string, ignore: set<string>, interrupt: set<string>)
    requires AllSpace(transcript)
    ensures !TranscriptInterrupts(transcript, ignore, interrupt)
  {
    BlankLowerHasNoWords(transcript);
  }

  // ---------------------------------------------------------------------
  // The gate as a transition function

  /** The gate's two fields: `pending`, and `vad_time` (`None` until first
      armed). */
  datatype GateState = GateState(pending: bool, vadTime: Option<int>)

  /** What `__init__` sets up. */
  const Initial := GateState(false, None)

  /** The events the gate reacts to.  A voice-activity pulse carries the
      time it was observed and whether the session was speaking then. */
  datatype Event =
    | VadPulse(now: int, speaking: bool)
    | SttFinal(transcript: string)
    | ValidationTimeout

  /** The gate's state after an event, and how many interrupt calls it made. */
  datatype Outcome = Outcome(state: GateState, interrupts: nat)

  /** The decision `on_stt_final` takes for an armed gate: an interrupt word
      among the tokens interrupts; otherwise a list made only of
      backchannel words (the empty list included) disarms silently; any
      other content interrupts. */
  function TranscriptInterrupts(transcript: string, ignore: set<string>, interrupt: set<string>): (r: bool)
    ensures AnyIn(Words(Lower(transcript)), interrupt) ==> r
    ensures ignore * interrupt == {} ==> (r <==> !AllIn(Words(Lower(transcript)), ignore))
  {
    var words := Words(Lower(transcript));
    AllInExcludes(words, ignore, interrupt);
    if AnyIn(words, interrupt) then true
    else if AllIn(words, ignore) then false
    else true
  }

  /** One event. */
  function Step(st: GateState, e: Event, ignore: set<string>, interrupt: set<string>): (r: Outcome)
    ensures r.interrupts <= 1
    ensures r.interrupts == 1 ==> st.pending && !e.VadPulse?
    ensures !e.VadPulse? ==> !r.state.pending && r.state.vadTime == st.vadTime
    ensures !st.pending && !e.VadPulse? ==> r == Outcome(st, 0)
    ensures e.VadPulse? ==>
      r.interrupts == 0 && r.state == if e.speaking then GateState(true, Some(e.now)) else st
  {
    match e
    case VadPulse(now, speaking) =>
      if !speaking then Outcome(st, 0) else Outcome(GateState(true, Some(now)), 0)
    case SttFinal(transcript) =>
      if !st.pending then Outcome(st, 0)
      else Outcome(st.(pending := false), if TranscriptInterrupts(transcript, ignore, interrupt) then 1 else 0)
    case ValidationTimeout =>
      if !st.pending then Outcome(st, 0) else Outcome(st.(pending := false), 1)
  }

  /** A sequence of events, one after another. */
  function Run(st: GateState, evs: seq<Event>, ignore: set<string>, interrupt: set<string>): Outcome
    decreases |evs|
  {
    if evs == [] then Outcome(st, 0)
    else
      var first := Step(st, evs[0], ignore, interrupt);
      var rest := Run(first.state, evs[1..], ignore, interrupt);
      Outcome(rest.state, first.interrupts + rest.interrupts)
  }

  /** The number of pulses that arm the gate (those seen while speaking). */
  function ArmingPulses(evs: seq<Event>): nat
  {
    if evs == [] then 0
    else (if evs[0].VadPulse? && evs[0].speaking then 1 else 0) + ArmingPulses(evs[1..])
  }

  /** Some event of the sequence is a transcript or a timeout. */
  predicate Resolves(evs: seq<Event>) {
    exists n :: 0 <= n < |evs| && !evs[n].VadPulse?
  }

  /** Never more interrupts than arming pulses, plus one for an episode
      already armed at the start: each episode interrupts at most once. */
  lemma {:induction false} InterruptsBoundedByArming(st: GateState, evs: seq<Event>, ignore: set<string>, interrupt: set<string>)
    ensures Run(st, evs, ignore, interrupt).interrupts <= (if st.pending then 1 else 0) + ArmingPulses(evs)
    decreases |evs|
  {
    if evs != [] {
      var first := Step(st, evs[0], ignore, interrupt);
      InterruptsBoundedByArming(first.state, evs[1..], ignore, interrupt);
    }
  }

  /** Without another arming pulse, an episode makes at most one interrupt
      call, never changes `vadTime`, and is over once a transcript or a
      timeout has arrived; until then nothing changes at all. */
  lemma {:induction false} EpisodeResolvesOnce(st: GateState, evs: seq<Event>, ignore: set<string>, interrupt: set<string>)
    requires ArmingPulses(evs) == 0
    ensures var o := Run(st, evs, ignore, interrupt);
      o.interrupts <= (if st.pending then 1 else 0) &&
      o.state.vadTime == st.vadTime &&
      (Resolves(evs) ==> !o.state.pending) &&
      (!Resolves(evs) ==> o == Outcome(st, 0))
    decreases |evs|
  {
    if evs != [] {
      var first := Step(st, evs[0], ignore, interrupt);
      EpisodeResolvesOnce(first.state, evs[1..], ignore, interrupt);
      if evs[0].VadPulse? {
        assert Resolves(evs) == Resolves(evs[1..]) by {
          if Resolves(evs) {
            var n :| 0 <= n < |evs| && !evs[n].VadPulse?;
            assert !evs[1..][n - 1].VadPulse?;
          }
          if Resolves(evs[1..]) {
            var n :| 0 <= n < |evs[1..]| && !evs[1..][n].VadPulse?;
            assert !evs[n + 1].VadPulse?;
          }
        }
      } else {
        assert Resolves(evs) by { assert !evs[0].VadPulse?; }
      }
    }
  }

  /** With nothing pending, transcripts, timeouts and pulses seen while the
      agent is silent change nothing and interrupt nothing. */
  lemma {:induction false} IdleIgnoresEvents(st: GateState, evs: seq<Event>, ignore: set<string>, interrupt: set<string>)
    requires !st.pending && ArmingPulses(evs) == 0
    ensures Run(st, evs, ignore, interrupt) == Outcome(st, 0)
    decreases |evs|
  {
    if evs != [] {
      IdleIgnoresEvents(st, evs[1..], ignore, interrupt);
    }
  }

  /** Arming twice keeps the later timestamp. */
  lemma ReArmOverwrites(st: GateState, t1: int, t2: int, ignore: set<string>, interrupt: set<string>)
    ensures Run(st, [VadPulse(t1, true), VadPulse(t2, true)], ignore, interrupt) ==
      Outcome(GateState(true, Some(t2)), 0)
  {
    var evs := [VadPulse(t1, true), VadPulse(t2, true)];
    assert evs[1..] == [VadPulse(t2, true)];
    assert evs[1..][1..] == [];
    assert Run(GateState(true, Some(t1)), evs[1..], ignore, interrupt) == Outcome(GateState(true, Some(t2)), 0);
  }

  /** A timeout right after arming interrupts once; whatever follows
      without a new arming pulse adds nothing. */
  lemma TimeoutAfterArming(now: int, evs: seq<Event>, ignore: set<string>, interrupt: set<string>)
    requires ArmingPulses(evs) == 0
    ensures Run(Initial, [VadPulse(now, true), ValidationTimeout] + evs, ignore, interrupt).interrupts == 1
  {
    var all := [VadPulse(now, true), ValidationTimeout] + evs;
    assert all[1..] == [ValidationTimeout] + evs;
    assert ([ValidationTimeout] + evs)[1..] == evs;
    IdleIgnoresEvents(GateState(false, Some(now)), evs, ignore, interrupt);
  }

  /** Two events, one after the other. */
  lemma RunPair(st: GateState, e1: Event, e2: Event, ignore: set<string>, interrupt: set<string>)
    ensures var o1 := Step(st, e1, ignore, interrupt);
      var o2 := Step(o1.state, e2, ignore, interrupt);
      Run(st, [e1, e2], ignore, interrupt) == Outcome(o2.state, o1.interrupts + o2.interrupts)
  {
    var evs := [e1, e2];
    var o1 := Step(st, e1, ignore, interrupt);
    assert evs[1..] == [e2];
    assert [e2][1..] == [];
    assert Run(o1.state, [e2], ignore, interrupt) == Step(o1.state, e2, ignore, interrupt);
  }

  /** Armed, then a transcript: the gate disarms, and interrupts once
      exactly when the transcript calls for it. */
  lemma ArmedTranscript(now: int, transcript: string, ignore: set<string>, interrupt: set<string>)
    ensures Run(Initial, [VadPulse(now, true), SttFinal(transcript)], ignore, interrupt) ==
      Outcome(GateState(false, Some(now)), if TranscriptInterrupts(transcript, ignore, interrupt) then 1 else 0)
  {
    RunPair(Initial, VadPulse(now, true), SttFinal(transcript), ignore, interrupt);
  }

  /** "uh-huh ok" is a backchannel for the default sets. */
  lemma BackchannelDoesNotInterrupt()
    ensures !TranscriptInterrupts("uh-huh ok", IgnoreWords, InterruptWords)
  {
    BackchannelWords();
    BackchannelTokens(Words(Lower("uh-huh ok")));
  }

  /** Armed, then "uh-huh ok": the gate disarms without interrupting. */
  lemma BackchannelDisarms(now: int)
    ensures Run(Initial, [VadPulse(now, true), SttFinal("uh-huh ok")], IgnoreWords, InterruptWords) ==
      Outcome(GateState(false, Some(now)), 0)
  {
    BackchannelDoesNotInterrupt();
    ArmedTranscript(now, "uh-huh ok", IgnoreWords, InterruptWords);
  }

  lemma StopInterrupts()
    ensures TranscriptInterrupts("wait stop", IgnoreWords, InterruptWords)
  {
    StopWords();
    StopTokens(Words(Lower("wait stop")));
  }

  /** Armed, then "wait stop": exactly one interrupt. */
  lemma InterruptWordsInterrupt(now: int)
    ensures Run(Initial, [VadPulse(now, true), SttFinal("wait stop")], IgnoreWords, InterruptWords) ==
      Outcome(GateState(false, Some(now)), 1)
  {
    StopInterrupts();
    ArmedTranscript(now, "wait stop", IgnoreWords, InterruptWords);
  }

  lemma GoOnInterrupts()
    ensures TranscriptInterrupts("Go on", IgnoreWords, InterruptWords)
  {
    GoOnWords();
    GoOnTokens(Words(Lower("Go on")));
  }

  /** Armed, then "Go on", which is neither a backchannel nor an interrupt
      word: exactly one interrupt. */
  lemma RealContentInterrupts(now: int)
    ensures Run(Initial, [VadPulse(now, true), SttFinal("Go on")], IgnoreWords, InterruptWords) ==
      Outcome(GateState(false, Some(now)), 1)
  {
    GoOnInterrupts();
    ArmedTranscript(now, "Go on", IgnoreWords, InterruptWords);
  }

  // ---------------------------------------------------------------------
  // The gate as an object

  class InterruptGate {
    const session: Session
    /** `IGNORE_WORDS` and `INTERRUPT_WORDS`, fixed at start-up. */
    const ignoreWords: set<string>
    const interruptWords: set<string>
    var pending: bool
    var vadTime: Option<int>

    function State(): GateState
      reads this
    {
      GateState(pending, vadTime)
    }

    constructor (session: Session, ignoreWords: set<string>, interruptWords: set<string>)
      ensures this.session == session
      ensures this.ignoreWords == ignoreWords && this.interruptWords == interruptWords
      ensures State() == Initial
    {
      this.session := session;
      this.ignoreWords := ignoreWords;
      this.interruptWords := interruptWords;
      pending := false;
      vadTime := None;
    }

    /** `on_vad`, with `time.time() * 1000` passed in as `now`. */
    method OnVad(now: int)
      modifies this
      ensures if session.isSpeaking then pending && vadTime == Some(now)
              else pending == old(pending) && vadTime == old(vadTime)
      ensures State() == Step(old(State()), VadPulse(now, session.isSpeaking), ignoreWords, interruptWords).state
    {
      if !session.isSpeaking {
        return;
      }
      pending := true;
      vadTime := Some(now);
    }

    /** `on_stt_final`: the interrupt call comes before `pending` is cleared. */
    method OnSttFinal(transcript: string)
      modifies this, session
      ensures !pending && vadTime == old(vadTime)
      ensures session.interrupts == old(session.interrupts) +
        if old(pending) && TranscriptInterrupts(transcript, ignoreWords, interruptWords) then 1 else 0
      ensures (old(pending) && TranscriptInterrupts(transcript, ignoreWords, interruptWords)) || unchanged(session)
      ensures var o := Step(old(State()), SttFinal(transcript), ignoreWords, interruptWords);
        State() == o.state && session.interrupts == old(session.interrupts) + o.interrupts
    {
      if !pending {
        return;
      }
      var words := Words(Lower(transcript));
      if AnyIn(words, interruptWords) {
        session.Interrupt();
        pending := false;
        return;
      }
      if AllIn(words, ignoreWords) {
        pending := false;
        return;
      }
      session.Interrupt();
      pending := false;
    }

    /** `on_timeout`. */
    method OnTimeout()
      modifies this, session
      ensures !pending && vadTime == old(vadTime)
      ensures session.interrupts == old(session.interrupts) + if old(pending) then 1 else 0
      ensures old(pending) || unchanged(session)
      ensures var o := Step(old(State()), ValidationTimeout, ignoreWords, interruptWords);
        State() == o.state && session.interrupts == old(session.interrupts) + o.interrupts
    {
      if !pending {
        return;
      }
      session.Interrupt();
      pending := false;
    }
  }

  /** The gate wired to a speaking session: a pulse, then "uh-huh ok",
      leaves the gate disarmed with no interrupt call. */
  method BackchannelEpisode(now: int) returns (interrupts: nat, pending: bool)
    ensures interrupts == 0 && !pending
  {
    var session := new Session(true);
    var gate := new InterruptGate(session, IgnoreWords, InterruptWords);
    gate.OnVad(now);
    BackchannelDoesNotInterrupt();
    gate.OnSttFinal("uh-huh ok");
    interrupts := session.interrupts;
    pending := gate.pending;
  }

  /** A pulse, then the validation timeout: one interrupt call; a second
      timeout adds none. */
  method TimeoutEpisode(now: int) returns (interrupts: nat, pending: bool)
    ensures interrupts == 1 && !pending
  {
    var session := new Session(true);
    var gate := new InterruptGate(session, IgnoreWords, InterruptWords);
    gate.OnVad(now);
    gate.OnTimeout();
    gate.OnTimeout();
    interrupts := session.interrupts;
    pending := gate.pending;
  }

  /** Calls out of order are no-ops: a transcript and a timeout reaching an
      idle gate change nothing, and a later pulse still arms it. */
  method OutOfOrderEvents(now: int) returns (interrupts: nat, pending: bool, speaking: bool)
    ensures interrupts == 0 && pending && speaking
  {
    var session := new Session(true);
    var gate := new InterruptGate(session, IgnoreWords, InterruptWords);
    gate.OnSttFinal("x");
    gate.OnTimeout();
    gate.OnVad(now);
    interrupts := session.interrupts;
    pending := gate.pending;
    speaking := session.isSpeaking;
  }
}

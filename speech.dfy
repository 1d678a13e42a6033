/**
 * The speech-to-text hook `useSpeechToText`: one recognition engine per mount,
 * an `isListening` flag and the current `transcript`.
 *
 * Each transition is a pure function on `SessionState`; the class `SpeechSession`
 * holds the hook's state in fields and each of its methods performs exactly one
 * transition. Engine callbacks (`onresult`, `onend`, `onerror`) are discrete events.
 */
module Speech {
  import opened Wrappers
  import JsText

  /** The options object passed to the hook; every field may be left undefined. */
  datatype Options = Options(interimResults: Option<bool>, lang: Option<string>, continuous: Option<bool>)

  /** The settings written onto the engine when it is created. */
  datatype EngineConfig = EngineConfig(interimResults: bool, lang: string, continuous: bool)

  const DefaultLang: string := "en-US"

  /** JavaScript `a || b` for an optional boolean `a`: `a` when it is `true`, `b` otherwise. */
  function OrBool(a: Option<bool>, b: bool): (r: bool)
    ensures r <==> a == Some(true) || b
  {
    if a == Some(true) then true else b
  }

  /** JavaScript `a || b` for an optional string `a`: `a` unless it is undefined or empty. */
  function OrString(a: Option<string>, b: string): (r: string)
    ensures a.Some? && a.value != "" ==> r == a.value
    ensures a == None || a == Some("") ==> r == b
  {
    if a.Some? && a.value != "" then a.value else b
  }

  /** The engine settings the hook derives from its options. */
  function Configure(o: Options): (c: EngineConfig)
    ensures c.interimResults  // `options.interimResults || true` is true even for an explicit false
    ensures c.lang == (if o.lang.Some? && o.lang.value != "" then o.lang.value else DefaultLang)
    ensures c.continuous <==> o.continuous == Some(true)
  {
    EngineConfig(OrBool(o.interimResults, true), OrString(o.lang, DefaultLang), OrBool(o.continuous, false))
  }

  lemma ConfigureDefaults()
    ensures Configure(Options(None, None, None)) == EngineConfig(true, "en-US", false)
  {
  }

  /** One recognition alternative; a result is the list of its alternatives, best first. */
  datatype Alternative = Alternative(transcript: string)
  type RecognitionResult = seq<Alternative>

  /** Every result carries at least its best alternative, as the engine always delivers. */
  predicate WellFormed(results: seq<RecognitionResult>) {
    forall i :: 0 <= i < |results| ==> |results[i]| > 0
  }

  /** The best alternatives of all results, concatenated in index order. */
  function Joined(results: seq<RecognitionResult>): (text: string)
    requires WellFormed(results)
    ensures |results| == 0 ==> text == ""
    ensures |results| > 0 ==> results[0][0].transcript <= text
    decreases |results|
  {
    if |results| == 0 then ""
    else Joined(results[..|results| - 1]) + results[|results| - 1][0].transcript
  }

  lemma {:induction false} JoinedAppend(a: seq<RecognitionResult>, b: seq<RecognitionResult>)
    requires WellFormed(a) && WellFormed(b)
    ensures WellFormed(a + b) && Joined(a + b) == Joined(a) + Joined(b)
    decreases |b|
  {
    if |b| == 0 {
      assert a + b == a;
    } else {
      var b' := b[..|b| - 1];
      assert (a + b)[..|a + b| - 1] == a + b';
      JoinedAppend(a, b');
    }
  }

  /** The text joined from a prefix of the results is a prefix of the text joined from all of them. */
  lemma JoinedPrefix(results: seq<RecognitionResult>, k: nat)
    requires WellFormed(results) && k <= |results|
    ensures Joined(results[..k]) <= Joined(results)
  {
    assert results == results[..k] + results[k..];
    JoinedAppend(results[..k], results[k..]);
  }

  /** JavaScript `s.charAt(0)`: the first character, or "" for the empty string. */
  function CharAt0(s: string): (r: string)
    ensures |r| == (if |s| > 0 then 1 else 0) && r <= s
  {
    if |s| > 0 then s[..1] else ""
  }

  /** JavaScript `s.slice(1)`: everything after the first character. */
  function Slice1(s: string): (r: string)
    ensures |r| == (if |s| > 0 then |s| - 1 else 0)
    ensures forall i :: 0 <= i < |r| ==> r[i] == s[i + 1]
  {
    if |s| > 0 then s[1..] else ""
  }

  /** The first character and the rest put back together give the string again. */
  lemma CharAtSliceSplit(s: string)
    ensures CharAt0(s) + Slice1(s) == s
  {
  }

  /** `text.charAt(0).toUpperCase() + text.slice(1)`. */
  function CapFirst(s: string): (r: string)
    ensures |r| == |s|
    ensures |s| > 0 ==> r[0] == JsText.UpperAscii(s[0])
    ensures forall i :: 1 <= i < |s| ==> r[i] == s[i]
  {
    JsText.ToUpperCase(CharAt0(s)) + Slice1(s)
  }

  lemma CapFirstEmpty()
    ensures CapFirst("") == ""
  {
  }

  lemma CapFirstIdempotent(s: string)
    ensures CapFirst(CapFirst(s)) == CapFirst(s)
  {
    if |s| > 0 {
      JsText.UpperAsciiIdempotent(s[0]);
    }
  }

  /** The calls the hook makes on the engine object and that take effect. */
  datatype EngineCall = StartEngine | StopEngine

  /**
   * The hook's state: the engine created at mount (None when the capability is missing),
   * the hook's two pieces of state, the engine's own "a session is running" flag
   * (set by a successful `start()`, cleared only by its end-of-session event),
   * and the log of engine calls.
   */
  datatype SessionState = SessionState(
    engine: Option<EngineConfig>,
    isListening: bool,
    transcript: string,
    engineActive: bool,
    engineCalls: seq<EngineCall>)

  /** Listening is only possible on an engine that exists and runs a session. */
  predicate Inv(s: SessionState) {
    (s.isListening ==> s.engineActive) && (s.engineActive ==> s.engine.Some?)
  }

  /** The state right after mount. */
  function Mounted(capable: bool, options: Options): (s: SessionState)
    ensures Inv(s) && !s.isListening && !s.engineActive && s.transcript == "" && s.engineCalls == []
    ensures s.engine.Some? <==> capable
    ensures capable ==> s.engine.value == Configure(options)
  {
    SessionState(if capable then Some(Configure(options)) else None, false, "", false, [])
  }

  /**
   * `startListening`. The guard needs an engine and the hook not listening. The engine's
   * `start()` throws while its previous session has not ended yet, and then
   * `setIsListening(true)` is never reached.
   */
  function Start(s: SessionState): (t: SessionState)
    ensures t.engine == s.engine && t.transcript == s.transcript
    ensures t.isListening <==> s.isListening || (s.engine.Some? && !s.engineActive)
    ensures t.engineActive <==> s.engineActive || (s.engine.Some? && !s.isListening)
    ensures t.engineCalls == s.engineCalls + (if t.isListening && !s.isListening then [StartEngine] else [])
  {
    if s.engine.Some? && !s.isListening && !s.engineActive then
      s.(isListening := true, engineActive := true, engineCalls := s.engineCalls + [StartEngine])
    else s
  }

  /** `stopListening`: the hook's flag drops at once; the engine's session ends later, with its end event. */
  function Stop(s: SessionState): (t: SessionState)
    ensures t.engine == s.engine && t.transcript == s.transcript && t.engineActive == s.engineActive
    ensures t.isListening <==> s.isListening && s.engine.None?
    ensures t.engineCalls == s.engineCalls + (if s.isListening && s.engine.Some? then [StopEngine] else [])
  {
    if s.engine.Some? && s.isListening then s.(isListening := false, engineCalls := s.engineCalls + [StopEngine])
    else s
  }

  /** `onresult`: only the transcript changes, to the capitalised join. */
  function WithResults(s: SessionState, results: seq<RecognitionResult>): (t: SessionState)
    requires WellFormed(results)
    ensures t.(transcript := s.transcript) == s
    ensures |t.transcript| == |Joined(results)|
    ensures |results| > 0 ==> |results[0][0].transcript| <= |t.transcript|
  {
    s.(transcript := CapFirst(Joined(results)))
  }

  /** `onend`: the engine's session is over, the hook stops listening and forgets the transcript. */
  function Ended(s: SessionState): (t: SessionState)
    ensures !t.isListening && !t.engineActive && t.transcript == ""
    ensures t.engine == s.engine && t.engineCalls == s.engineCalls
  {
    s.(isListening := false, transcript := "", engineActive := false)
  }

  /** The effect's cleanup at unmount: one `stop()` on an existing engine; the hook's state is left alone. */
  function TornDown(s: SessionState): (t: SessionState)
    ensures t.(engineCalls := s.engineCalls) == s
    ensures t.engineCalls == s.engineCalls + (if s.engine.Some? then [StopEngine] else [])
  {
    if s.engine.Some? then s.(engineCalls := s.engineCalls + [StopEngine]) else s
  }

  /** Everything the rest of the program or the engine can do to the hook. */
  datatype Event = StartListening | StopListening | Result(results: seq<RecognitionResult>) | End | Error(reason: string) | Teardown

  predicate EventOk(e: Event) {
    e.Result? ==> WellFormed(e.results)
  }

  function Apply(s: SessionState, e: Event): SessionState
    requires EventOk(e)
  {
    match e
    case StartListening => Start(s)
    case StopListening => Stop(s)
    case Result(results) => WithResults(s, results)
    case End => Ended(s)
    case Error(_) => s
    case Teardown => TornDown(s)
  }

  function Run(s: SessionState, events: seq<Event>): SessionState
    requires forall i :: 0 <= i < |events| ==> EventOk(events[i])
    decreases |events|
  {
    if |events| == 0 then s else Run(Apply(s, events[0]), events[1..])
  }

  /** Every event keeps the invariant, over any sequence of events. */
  lemma {:induction false} RunKeepsInv(s: SessionState, events: seq<Event>)
    requires Inv(s)
    requires forall i :: 0 <= i < |events| ==> EventOk(events[i])
    ensures Inv(Run(s, events))
    decreases |events|
  {
    if |events| > 0 {
      RunKeepsInv(Apply(s, events[0]), events[1..]);
    }
  }

  /** Without the capability no engine is made: the hook never listens and never calls an engine, whatever happens. */
  lemma {:induction false} NoEngineNeverListens(s: SessionState, events: seq<Event>)
    requires s.engine.None? && Inv(s)
    requires forall i :: 0 <= i < |events| ==> EventOk(events[i])
    ensures !Run(s, events).isListening
    ensures Run(s, events).engineCalls == s.engineCalls
    ensures Run(s, events).engine.None?
    decreases |events|
  {
    if |events| > 0 {
      NoEngineNeverListens(Apply(s, events[0]), events[1..]);
    }
  }

  /** Starting twice is starting once: no second engine session. */
  lemma StartIdempotent(s: SessionState)
    ensures Start(Start(s)) == Start(s)
  {
  }

  lemma StopIdempotent(s: SessionState)
    ensures Stop(Stop(s)) == Stop(s)
  {
  }

  /** A second end-of-session notification changes nothing. */
  lemma EndedIdempotent(s: SessionState)
    ensures Ended(Ended(s)) == Ended(s)
  {
  }

  /** Under the invariant, stopping always leaves the hook not listening. */
  lemma StopEndsListening(s: SessionState)
    requires Inv(s)
    ensures !Stop(s).isListening
    ensures Stop(s).transcript == s.transcript
  {
  }

  /**
   * Between `stopListening` and the engine's end event a new start fails: the engine is
   * still running its old session, so the hook stays not listening and no start is sent.
   */
  lemma RestartBeforeEndFails(s: SessionState)
    requires Inv(s) && s.isListening
    ensures !Start(Stop(s)).isListening
    ensures Start(Stop(s)).engineCalls == s.engineCalls + [StopEngine]
  {
  }

  /** A full session (start, stop, end event) from an idle engine returns to the same flags with one start and one stop sent; the next start then succeeds. */
  lemma SessionRoundTrip(s: SessionState)
    requires s.engine.Some? && !s.isListening && !s.engineActive
    ensures Ended(Stop(Start(s))) == s.(transcript := "", engineCalls := s.engineCalls + [StartEngine, StopEngine])
    ensures Start(Ended(Stop(Start(s)))).isListening
  {
  }

  /** The hook instance; `engine` is `recognitionRef.current`, set once by the mount effect. */
  class SpeechSession {
    const engine: Option<EngineConfig>
    var isListening: bool
    var transcript: string
    /** The engine object's own state, not the hook's: whether a session of it is running. */
    var engineActive: bool
    var engineCalls: seq<EngineCall>

    ghost function State(): SessionState
      reads this
    {
      SessionState(engine, isListening, transcript, engineActive, engineCalls)
    }

    ghost predicate Valid()
      reads this
    {
      Inv(State())
    }

    /** The first render followed by the mount effect: the engine is created and configured only when the capability exists. */
    constructor (capable: bool, options: Options)
      ensures Valid()
      ensures State() == Mounted(capable, options)
      ensures capable ==> engine == Some(Configure(options))
      ensures !capable ==> engine.None?
    {
      engine := if capable then Some(Configure(options)) else None;
      isListening := false;
      transcript := "";
      engineActive := false;
      engineCalls := [];
    }

    method StartListening()
      requires Valid()
      modifies this
      ensures Valid()
      ensures State() == Start(old(State()))
    {
      if engine.Some? && !isListening {
        if !engineActive {  // otherwise `start()` throws and the rest of the handler is skipped
          engineActive := true;
          engineCalls := engineCalls + [StartEngine];
          isListening := true;
        }
      }
    }

    method StopListening()
      requires Valid()
      modifies this
      ensures Valid()
      ensures State() == Stop(old(State()))
      ensures !isListening
    {
      if engine.Some? && isListening {
        engineCalls := engineCalls + [StopEngine];
        isListening := false;
      }
    }

    /** The engine delivers the results of the current session. */
    method OnResult(results: seq<RecognitionResult>)
      requires Valid() && WellFormed(results)
      modifies this
      ensures Valid()
      ensures State() == WithResults(old(State()), results)
    {
      var text := "";
      var i := 0;
      while i < |results|
        invariant 0 <= i <= |results|
        invariant text == Joined(results[..i])
      {
        assert results[..i + 1][..i] == results[..i];
        text := text + results[i][0].transcript;
        i := i + 1;
      }
      assert results[..|results|] == results;
      transcript := CapFirst(text);
    }

    /** The engine reports an error; the hook only logs it. */
    method OnError(reason: string)
      requires Valid()
      ensures Valid()
      ensures State() == old(State())
    {
    }

    /** The engine reports that its session ended. */
    method OnEnd()
      requires Valid()
      modifies this
      ensures Valid()
      ensures State() == Ended(old(State()))
    {
      engineActive := false;
      isListening := false;
      transcript := "";
    }

    /** The mount effect's cleanup: stop the engine if there is one, whatever the flags say. */
    method Teardown()
      requires Valid()
      modifies this
      ensures Valid()
      ensures State() == TornDown(old(State()))
    {
      if engine.Some? {
        engineCalls := engineCalls + [StopEngine];
      }
    }
  }
}

/**
 * The speech-to-text component around the recorder: the cached decoder, the
 * WAV format check before decoding, and the order in which a listen session or
 * a decode-WAV call sets the entity state and fires events on Home Assistant.
 *
 * Home Assistant is seen only through `log`, the sequence of state changes
 * (`hass.states.async_set`) and fired events (`hass.bus.async_fire`) in the
 * order the component makes them.
 */
module SttPocketsphinx {
  import opened Wrappers
  import opened Recorder
  import ListenConfig

  /** States of the entity `stt_pocketsphinx.pocketsphinx`. */
  datatype EntityState = Idle | Loading | Listening | Decoding

  datatype Event =
    | SpeechRecorded(name: string, size: nat)
    | SpeechToText(name: string, text: Option<string>)

  /** One call into Home Assistant; `text` is the entity's `text` attribute at that moment. */
  datatype Report =
    | SetState(state: EntityState, text: Option<string>)
    | Fire(event: Event)

  datatype ModelPaths = ModelPaths(acousticModel: string, languageModel: string, dictionary: string)

  /** A loaded Pocketsphinx decoder; all the model knows of it is what it was loaded from. */
  datatype Decoder = Decoder(paths: ModelPaths)

  /** What the decoder returns for a complete utterance; `None` when it has no hypothesis. */
  type Recognizer = (Decoder, seq<byte>) -> Option<string>

  // ---------------------------------------------------------------------------
  // Counts of a session

  /**
   * The three reload counts of a listen session: for each configured
   * duration, the fewest buffers whose total duration reaches it.
   */
  function SessionCounts(minSec: real, silenceSec: real, timeoutSec: real, bufferSize: nat, sampleRate: nat): (c: Counts)
    requires bufferSize > 0 && sampleRate > 0
    ensures var spb := ListenConfig.SecondsPerBuffer(bufferSize, sampleRate);
      && ListenConfig.LeastCover(c.maxReload, timeoutSec, spb)
      && ListenConfig.LeastCover(c.silenceReload, silenceSec, spb)
      && ListenConfig.LeastCover(c.minReload, minSec, spb)
  {
    Counts(ListenConfig.ReloadCount(timeoutSec, bufferSize, sampleRate),
           ListenConfig.ReloadCount(silenceSec, bufferSize, sampleRate),
           ListenConfig.ReloadCount(minSec, bufferSize, sampleRate))
  }

  lemma DefaultSessionCounts()
    ensures SessionCounts(ListenConfig.DefaultMinSec, ListenConfig.DefaultSilenceSec, ListenConfig.DefaultTimeoutSec,
                          ListenConfig.DefaultBufferSize, ListenConfig.DefaultSampleRate)
            == Counts(1000, 17, 67)
  {
    ListenConfig.DefaultCounts();
  }

  // ---------------------------------------------------------------------------
  // WAV format check

  datatype WavFormat = WavFormat(rate: int, width: int, channels: int)

  /** 16 kHz, 16-bit, mono: what the acoustic models require. */
  const DecoderFormat := WavFormat(16000, 2, 1)

  predicate NeedsConversion(f: WavFormat)
    ensures NeedsConversion(f) <==> f != DecoderFormat
  {
    f.rate != 16000 || f.width != 2 || f.channels != 1
  }

  /** The audio handed to the decoder, and whether the missing-sox error was logged. */
  datatype Prepared = Prepared(format: WavFormat, data: seq<byte>, soxMissingLogged: bool)

  /**
   * Conversion is attempted exactly when the format is not the decoder's;
   * without sox an error is logged and the data is decoded unconverted.
   * `soxOutput` stands for the frames sox writes (16 kHz, 16-bit, mono).
   */
  function PrepareAudio(format: WavFormat, data: seq<byte>, soxAvailable: bool, soxOutput: seq<byte>): (p: Prepared)
    ensures p.soxMissingLogged <==> NeedsConversion(format) && !soxAvailable
    ensures !NeedsConversion(format) || !soxAvailable ==> p.data == data && p.format == format
    ensures NeedsConversion(format) && soxAvailable ==> p.data == soxOutput
    ensures !p.soxMissingLogged ==> p.format == DecoderFormat
  {
    if !NeedsConversion(format) then Prepared(format, data, false)
    else if !soxAvailable then Prepared(format, data, true)
    else Prepared(DecoderFormat, soxOutput, false)
  }

  // ---------------------------------------------------------------------------
  // Report sequences

  /** Loading the decoder when the cache is empty shows `loading`, then `decoding` again. */
  function LoadReports(cacheEmpty: bool, text: Option<string>): (r: seq<Report>)
    ensures r != [] <==> cacheEmpty
    ensures forall i :: 0 <= i < |r| ==> r[i].SetState? && r[i].text == text
    ensures r != [] ==> r[0].state == Loading && r[|r| - 1].state == Decoding
  {
    if cacheEmpty then [SetState(Loading, text)] + [SetState(Decoding, text)] else []
  }

  /** The end of a decode that was not terminated: `idle` with the phrase, then `speech_to_text`. */
  function FinishReports(name: string, phrase: Option<string>, stopped: bool): (r: seq<Report>)
    ensures r == [] <==> stopped
    ensures r != [] ==> r[0] == SetState(Idle, phrase) && r[|r| - 1] == Fire(SpeechToText(name, phrase))
  {
    if stopped then [] else [SetState(Idle, phrase)] + [Fire(SpeechToText(name, phrase))]
  }

  /**
   * A decode (of a recording or, as intended, of a WAV upload): `decoding`,
   * the decoder load when needed, and unless terminated the finish.
   */
  function DecodeReports(name: string, text: Option<string>, cacheEmpty: bool,
                            phrase: Option<string>, stopDecoded: bool): (r: seq<Report>)
    ensures |r| >= 1 && r[0] == SetState(Decoding, text)
    ensures stopDecoded ==> forall i :: 0 <= i < |r| ==> r[i].SetState? && r[i].state != Idle
    ensures !stopDecoded ==> |r| >= 3 && r[|r| - 2] == SetState(Idle, phrase) && r[|r| - 1] == Fire(SpeechToText(name, phrase))
  {
    [SetState(Decoding, text)] + (LoadReports(cacheEmpty, text) + FinishReports(name, phrase, stopDecoded))
  }

  /**
   * A listen session: `listening`; unless terminated while recording,
   * `speech_recorded` with the size in bytes and then the decode.
   */
  function ListenReports(name: string, text: Option<string>, cacheEmpty: bool, size: nat,
                         phrase: Option<string>, stopRecorded: bool, stopDecoded: bool): (r: seq<Report>)
    ensures |r| >= 1 && r[0] == SetState(Listening, text)
    ensures |r| == 1 <==> stopRecorded
    ensures !stopRecorded ==> |r| >= 3 && r[1] == Fire(SpeechRecorded(name, size)) && r[2] == SetState(Decoding, text)
  {
    if stopRecorded then [SetState(Listening, text)]
    else [SetState(Listening, text)] + ([Fire(SpeechRecorded(name, size))] + DecodeReports(name, text, cacheEmpty, phrase, stopDecoded))
  }

  /**
   * A decode-WAV call as the source is written. Without a hypothesis the
   * decode thread raises a TypeError when it logs the phrase (str + None at
   * stt_pocketsphinx.py:472), before it sets the decoded event, so the call
   * goes no further. With one, the entity goes back to `idle`, but logging
   * the state attributes (str + dict at :491) raises before `speech_to_text`
   * is fired.
   */
  function DecodeWavReportsAsWritten(name: string, text: Option<string>, cacheEmpty: bool,
                                     phrase: Option<string>, stopDecoded: bool): (r: seq<Report>)
    ensures |r| >= 1 && r[0] == SetState(Decoding, text)
    ensures forall i :: 0 <= i < |r| ==> r[i].SetState?
    ensures phrase.None? ==> forall i :: 0 <= i < |r| ==> r[i].state != Idle
  {
    [SetState(Decoding, text)]
    + (LoadReports(cacheEmpty, text) + if stopDecoded || phrase.None? then [] else [SetState(Idle, phrase)])
  }

  // ---------------------------------------------------------------------------
  // Lifecycle of the entity

  /** The state a report sets, if it sets one. */
  function StateOf(x: Report): seq<EntityState>
  {
    if x.SetState? then [x.state] else []
  }

  /** The event a report fires, if it fires one. */
  function EventOf(x: Report): seq<Event>
  {
    if x.Fire? then [x.event] else []
  }

  /** The state changes of a report sequence, in order. */
  function States(r: seq<Report>): seq<EntityState>
  {
    if |r| == 0 then [] else StateOf(r[0]) + States(r[1..])
  }

  /** The events of a report sequence, in order. */
  function Events(r: seq<Report>): seq<Event>
  {
    if |r| == 0 then [] else EventOf(r[0]) + Events(r[1..])
  }

  lemma StatesSingle(x: Report)
    ensures States([x]) == if x.SetState? then [x.state] else []
    ensures Events([x]) == if x.Fire? then [x.event] else []
  {
    assert [x][1..] == [];
  }

  lemma {:induction false} StatesAppend(a: seq<Report>, b: seq<Report>)
    ensures States(a + b) == States(a) + States(b)
    ensures Events(a + b) == Events(a) + Events(b)
  {
    StatesOfAppend(a, b);
    EventsOfAppend(a, b);
  }

  lemma {:induction false} StatesOfAppend(a: seq<Report>, b: seq<Report>)
    ensures States(a + b) == States(a) + States(b)
    decreases |a|
  {
    if |a| == 0 {
      assert a + b == b;
    } else {
      var rest := a[1..];
      assert (a + b)[0] == a[0];
      assert (a + b)[1..] == rest + b;
      StatesOfAppend(rest, b);
      assert States(a + b) == StateOf(a[0]) + (States(rest) + States(b));
      assert States(a) == StateOf(a[0]) + States(rest);
    }
  }

  lemma {:induction false} EventsOfAppend(a: seq<Report>, b: seq<Report>)
    ensures Events(a + b) == Events(a) + Events(b)
    decreases |a|
  {
    if |a| == 0 {
      assert a + b == b;
    } else {
      var rest := a[1..];
      assert (a + b)[0] == a[0];
      assert (a + b)[1..] == rest + b;
      EventsOfAppend(rest, b);
      assert Events(a + b) == EventOf(a[0]) + (Events(rest) + Events(b));
      assert Events(a) == EventOf(a[0]) + Events(rest);
    }
  }

  /** The entity's state changes the component makes: a session starts from idle and ends in idle. */
  predicate Allowed(from: EntityState, to: EntityState)
  {
    || (from == Idle && to == Listening)
    || (from == Idle && to == Decoding)
    || (from == Listening && to == Decoding)
    || (from == Decoding && to == Loading)
    || (from == Loading && to == Decoding)
    || (from == Decoding && to == Idle)
  }

  predicate LifecyclePath(from: EntityState, states: seq<EntityState>)
    decreases |states|
  {
    states == [] || (Allowed(from, states[0]) && LifecyclePath(states[0], states[1..]))
  }

  lemma LoadReportsParts(cacheEmpty: bool, text: Option<string>)
    ensures States(LoadReports(cacheEmpty, text)) == if cacheEmpty then [Loading, Decoding] else []
    ensures Events(LoadReports(cacheEmpty, text)) == []
  {
    if cacheEmpty {
      StatesSingle(SetState(Loading, text));
      StatesSingle(SetState(Decoding, text));
      StatesAppend([SetState(Loading, text)], [SetState(Decoding, text)]);
      assert LoadReports(cacheEmpty, text) == [SetState(Loading, text)] + [SetState(Decoding, text)];
    }
  }

  lemma FinishReportsParts(name: string, phrase: Option<string>, stopped: bool)
    ensures States(FinishReports(name, phrase, stopped)) == if stopped then [] else [Idle]
    ensures Events(FinishReports(name, phrase, stopped)) == if stopped then [] else [SpeechToText(name, phrase)]
  {
    if !stopped {
      StatesSingle(SetState(Idle, phrase));
      StatesSingle(Fire(SpeechToText(name, phrase)));
      StatesAppend([SetState(Idle, phrase)], [Fire(SpeechToText(name, phrase))]);
      assert FinishReports(name, phrase, stopped) == [SetState(Idle, phrase)] + [Fire(SpeechToText(name, phrase))];
    }
  }

  lemma PathCons(from: EntityState, x: EntityState, rest: seq<EntityState>)
    requires Allowed(from, x) && LifecyclePath(x, rest)
    ensures LifecyclePath(from, [x] + rest)
  {
    assert ([x] + rest)[1..] == rest;
  }

  /** The states of a decode after `decoding` has been set. */
  lemma DecodingPath(cacheEmpty: bool, stopped: bool)
    ensures LifecyclePath(Decoding, (if cacheEmpty then [Loading, Decoding] else []) + (if stopped then [] else [Idle]))
  {
    var tail := if stopped then [] else [Idle];
    assert LifecyclePath(Decoding, tail);
    if cacheEmpty {
      assert ([Loading, Decoding] + tail)[1..] == [Decoding] + tail;
      assert ([Decoding] + tail)[1..] == tail;
    }
  }

  /** The state changes and events of a decode. */
  lemma DecodeParts(name: string, text: Option<string>, cacheEmpty: bool, phrase: Option<string>, stopDecoded: bool)
    ensures var r := DecodeReports(name, text, cacheEmpty, phrase, stopDecoded);
      && States(r) == [Decoding] + ((if cacheEmpty then [Loading, Decoding] else []) + (if stopDecoded then [] else [Idle]))
      && Events(r) == (if stopDecoded then [] else [SpeechToText(name, phrase)])
  {
    var head := [SetState(Decoding, text)];
    StatesSingle(SetState(Decoding, text));
    var load := LoadReports(cacheEmpty, text);
    var fin := FinishReports(name, phrase, stopDecoded);
    LoadReportsParts(cacheEmpty, text);
    FinishReportsParts(name, phrase, stopDecoded);
    StatesAppend(load, fin);
    StatesAppend(head, load + fin);
  }

  /** A state change followed by an event, in front of further reports. */
  lemma StateThenEvent(x: Report, y: Report, rest: seq<Report>)
    requires x.SetState? && y.Fire?
    ensures States([x] + ([y] + rest)) == [x.state] + States(rest)
    ensures Events([x] + ([y] + rest)) == [y.event] + Events(rest)
  {
    StatesSingle(x);
    StatesSingle(y);
    StatesAppend([y], rest);
    StatesAppend([x], [y] + rest);
    assert [] + States(rest) == States(rest);
    assert [] + ([y.event] + Events(rest)) == [y.event] + Events(rest);
  }

  /** The state changes and events of a listen session. */
  lemma ListenParts(name: string, text: Option<string>, cacheEmpty: bool, size: nat,
                    phrase: Option<string>, stopRecorded: bool, stopDecoded: bool)
    ensures var r := ListenReports(name, text, cacheEmpty, size, phrase, stopRecorded, stopDecoded);
      && States(r) == [Listening] + (if stopRecorded then [] else
           States(DecodeReports(name, text, cacheEmpty, phrase, stopDecoded)))
      && Events(r) == (if stopRecorded then [] else
           [SpeechRecorded(name, size)] + Events(DecodeReports(name, text, cacheEmpty, phrase, stopDecoded)))
  {
    if !stopRecorded {
      var dec := DecodeReports(name, text, cacheEmpty, phrase, stopDecoded);
      StateThenEvent(SetState(Listening, text), Fire(SpeechRecorded(name, size)), dec);
    } else {
      StatesSingle(SetState(Listening, text));
    }
  }

  /**
   * A listen session walks the entity lifecycle from idle; it gets back to idle
   * exactly when it is not terminated; it shows `loading` exactly when it
   * decodes with an empty cache; and it fires `speech_recorded` with the
   * recording's size before `speech_to_text` with the decoded phrase.
   */
  lemma ListenLifecycle(name: string, text: Option<string>, cacheEmpty: bool, size: nat,
                        phrase: Option<string>, stopRecorded: bool, stopDecoded: bool)
    ensures var r := ListenReports(name, text, cacheEmpty, size, phrase, stopRecorded, stopDecoded);
      && LifecyclePath(Idle, States(r))
      && (States(r)[|States(r)| - 1] == Idle <==> !stopRecorded && !stopDecoded)
      && (Loading in States(r) <==> !stopRecorded && cacheEmpty)
      && Events(r) == (if stopRecorded then [] else [SpeechRecorded(name, size)])
                      + (if stopRecorded || stopDecoded then [] else [SpeechToText(name, phrase)])
  {
    ListenStates(name, text, cacheEmpty, size, phrase, stopRecorded, stopDecoded);
    ListenEvents(name, text, cacheEmpty, size, phrase, stopRecorded, stopDecoded);
  }

  /** The state half of `ListenLifecycle`. */
  lemma ListenStates(name: string, text: Option<string>, cacheEmpty: bool, size: nat,
                     phrase: Option<string>, stopRecorded: bool, stopDecoded: bool)
    ensures var ss := States(ListenReports(name, text, cacheEmpty, size, phrase, stopRecorded, stopDecoded));
      && LifecyclePath(Idle, ss)
      && (ss[|ss| - 1] == Idle <==> !stopRecorded && !stopDecoded)
      && (Loading in ss <==> !stopRecorded && cacheEmpty)
  {
    ListenParts(name, text, cacheEmpty, size, phrase, stopRecorded, stopDecoded);
    var ss := States(ListenReports(name, text, cacheEmpty, size, phrase, stopRecorded, stopDecoded));
    if stopRecorded {
      assert ss == [Listening] + [];
      PathCons(Idle, Listening, []);
    } else {
      DecodeParts(name, text, cacheEmpty, phrase, stopDecoded);
      ListenedStates(cacheEmpty, stopDecoded, ss);
    }
  }

  /** The event half of `ListenLifecycle`. */
  lemma ListenEvents(name: string, text: Option<string>, cacheEmpty: bool, size: nat,
                     phrase: Option<string>, stopRecorded: bool, stopDecoded: bool)
    ensures Events(ListenReports(name, text, cacheEmpty, size, phrase, stopRecorded, stopDecoded))
      == (if stopRecorded then [] else [SpeechRecorded(name, size)])
         + (if stopRecorded || stopDecoded then [] else [SpeechToText(name, phrase)])
  {
    ListenParts(name, text, cacheEmpty, size, phrase, stopRecorded, stopDecoded);
    DecodeParts(name, text, cacheEmpty, phrase, stopDecoded);
  }

  /** The state changes of a listen session that went on to decode. */
  lemma ListenedStates(cacheEmpty: bool, stopDecoded: bool, ss: seq<EntityState>)
    requires ss == [Listening] + ([Decoding] + ((if cacheEmpty then [Loading, Decoding] else [])
                                                + (if stopDecoded then [] else [Idle])))
    ensures LifecyclePath(Idle, ss)
    ensures ss[|ss| - 1] == Idle <==> !stopDecoded
    ensures Loading in ss <==> cacheEmpty
  {
    var load := if cacheEmpty then [Loading, Decoding] else [];
    var fin := if stopDecoded then [] else [Idle];
    DecodingPath(cacheEmpty, stopDecoded);
    PathCons(Listening, Decoding, load + fin);
    PathCons(Idle, Listening, [Decoding] + (load + fin));
  }

  /**
   * Corrected decode-WAV call: from idle through the lifecycle; unless
   * terminated it ends in idle with the phrase as text and fires exactly one
   * `speech_to_text`, carrying the phrase (`None` when nothing was recognised).
   */
  lemma DecodeWavAnnouncesOnce(name: string, text: Option<string>, cacheEmpty: bool,
                               phrase: Option<string>, stopDecoded: bool)
    ensures var r := DecodeReports(name, text, cacheEmpty, phrase, stopDecoded);
      && LifecyclePath(Idle, States(r))
      && (!stopDecoded ==> r[|r| - 2] == SetState(Idle, phrase))
      && Events(r) == if stopDecoded then [] else [SpeechToText(name, phrase)]
  {
    DecodeParts(name, text, cacheEmpty, phrase, stopDecoded);
    var loadStates := if cacheEmpty then [Loading, Decoding] else [];
    var finStates := if stopDecoded then [] else [Idle];
    var r := DecodeReports(name, text, cacheEmpty, phrase, stopDecoded);
    DecodingPath(cacheEmpty, stopDecoded);
    assert States(r)[1..] == loadStates + finStates;
  }

  /** As written, a decode-WAV call never fires `speech_to_text`, whatever it recognises. */
  lemma AsWrittenNeverAnnounces(name: string, text: Option<string>, cacheEmpty: bool,
                                phrase: Option<string>, stopDecoded: bool)
    ensures Events(DecodeWavReportsAsWritten(name, text, cacheEmpty, phrase, stopDecoded)) == []
  {
    var head := [SetState(Decoding, text)];
    var load := LoadReports(cacheEmpty, text);
    var tail := if stopDecoded || phrase.None? then [] else [SetState(Idle, phrase)];
    StatesSingle(SetState(Decoding, text));
    StatesSingle(SetState(Idle, phrase));
    LoadReportsParts(cacheEmpty, text);
    StatesAppend(load, tail);
    StatesAppend(head, load + tail);
  }

  /** As written, a decode-WAV call that recognises nothing leaves the entity out of idle. */
  lemma AsWrittenStuckWithoutHypothesis(name: string, text: Option<string>, cacheEmpty: bool, stopDecoded: bool)
    ensures Idle !in States(DecodeWavReportsAsWritten(name, text, cacheEmpty, None, stopDecoded))
  {
    var head := [SetState(Decoding, text)];
    var load := LoadReports(cacheEmpty, text);
    StatesSingle(SetState(Decoding, text));
    LoadReportsParts(cacheEmpty, text);
    StatesAppend(head, load);
    assert DecodeWavReportsAsWritten(name, text, cacheEmpty, None, stopDecoded) == head + (load + []);
    assert load + [] == load;
  }

  // ---------------------------------------------------------------------------
  // The component

  /**
   * The variables `async_setup` shares between its service handlers: the
   * cached decoder, the last decoded phrase, the terminated flag and the
   * entity's `text` attribute, plus the log of calls into Home Assistant.
   */
  class Component {
    const name: string
    const paths: ModelPaths
    const counts: Counts
    var decoder: Option<Decoder>
    var decodedPhrase: Option<string>
    var terminated: bool
    var text: Option<string>
    var log: seq<Report>

    /** A cached decoder is always the one loaded from the configured model files. */
    ghost predicate Valid()
      reads this
    {
      decoder.Some? ==> decoder.value == Decoder(paths)
    }

    /** Set-up: no decoder yet, the entity idle with an empty text. */
    constructor (name: string, paths: ModelPaths, counts: Counts)
      ensures Valid()
      ensures this.name == name && this.paths == paths && this.counts == counts
      ensures decoder == None && decodedPhrase == None && !terminated
      ensures text == Some("") && log == [SetState(Idle, Some(""))]
    {
      this.name := name;
      this.paths := paths;
      this.counts := counts;
      decoder := None;
      decodedPhrase := None;
      terminated := false;
      text := Some("");
      log := [SetState(Idle, Some(""))];
    }

    /** Load the decoder dynamically: build it only when the cache is empty, else reuse it. */
    method LoadDecoder()
      requires Valid()
      modifies this`decoder, this`log
      ensures Valid() && decoder == Some(Decoder(paths))
      ensures old(decoder).Some? ==> decoder == old(decoder)
      ensures log == old(log) + LoadReports(old(decoder).None?, text)
    {
      if decoder.None? {
        log := log + [SetState(Loading, text)];
        decoder := Some(Decoder(paths));
        log := log + [SetState(Decoding, text)];
      }
    }

    /** Run the loaded decoder on a complete utterance; the phrase is kept only if there is a hypothesis. */
    method RunDecoder(data: seq<byte>, recognize: Recognizer)
      requires Valid() && decoder.Some?
      modifies this`decodedPhrase
      ensures decodedPhrase == if recognize(decoder.value, data).Some? then recognize(decoder.value, data) else old(decodedPhrase)
    {
      var hyp := recognize(decoder.value, data);
      if hyp.Some? {
        decodedPhrase := hyp;
      }
    }

    /**
     * The capture of a listen session: a fresh recorder whose callback PyAudio
     * calls once per delivered buffer, in order. The result is `recorded_data`.
     */
    method Record(deliveries: seq<Input>) returns (data: seq<byte>)
      ensures data == Recording(deliveries)
    {
      var recorder := new PhraseRecorder(counts);
      var i := 0;
      while i < |deliveries|
        invariant 0 <= i <= |deliveries|
        invariant recorder.Valid() && recorder.counts == counts
        invariant recorder.State() == Run(counts, Initial(counts), deliveries[..i])
      {
        RunNext(counts, Initial(counts), deliveries, i);
        var _, _, _ := recorder.StreamCallback(deliveries[i].frame, deliveries[i].isSpeech);
        i := i + 1;
      }
      assert deliveries[..i] == deliveries;
      data := recorder.recordedData;
    }

    /** The bytes a listen session records from `deliveries`. */
    function Recording(deliveries: seq<Input>): (data: seq<byte>)
      ensures exists fs :: IsSubsequence(fs, Frames(deliveries)) && data == Flatten(fs)
    {
      FrameCountBound(counts, deliveries);
      Flatten(Run(counts, Initial(counts), deliveries).recorded)
    }

    /** The phrase a listen session ends with: no text unless the decoder has a hypothesis. */
    function ListenPhrase(deliveries: seq<Input>, stopRecorded: bool, recognize: Recognizer): (p: Option<string>)
      ensures p.Some? <==> !stopRecorded && recognize(Decoder(paths), Recording(deliveries)).Some?
      ensures p.Some? ==> p == recognize(Decoder(paths), Recording(deliveries))
      ensures stopRecorded ==> p.None?
      ensures p.Some? ==> exists fs :: IsSubsequence(fs, Frames(deliveries)) && p == recognize(Decoder(paths), Flatten(fs))
    {
      if stopRecorded then None else recognize(Decoder(paths), Recording(deliveries))
    }

    /**
     * The `listen` service. PyAudio hands the callback the buffers in
     * `deliveries` before the stream is stopped; the wait for the recorded event
     * returns once the recorder has finished or the component was terminated
     * (`stopRecorded`). `stopDecoded` says whether termination came while the
     * decode thread ran.
     */
    method Listen(deliveries: seq<Input>, stopRecorded: bool, stopDecoded: bool, recognize: Recognizer)
      requires Valid()
      requires Run(counts, Initial(counts), deliveries).finished || stopRecorded
      modifies this
      ensures Valid()
      ensures decodedPhrase == ListenPhrase(deliveries, stopRecorded, recognize)
      ensures text == (if stopRecorded || stopDecoded then old(text) else decodedPhrase)
      ensures log == old(log) + ListenReports(name, old(text), old(decoder).None?, |Recording(deliveries)|,
                                              decodedPhrase, stopRecorded, stopDecoded)
      ensures decoder == (if stopRecorded then old(decoder) else Some(Decoder(paths)))
      ensures terminated == (stopRecorded || stopDecoded)
    {
      decodedPhrase := None;
      terminated := false;
      log := log + [SetState(Listening, text)];

      var data := Record(deliveries);

      terminated := stopRecorded;
      if !terminated {
        ghost var listening := log;
        AnnounceAndDecode(data, stopDecoded, recognize);
        ghost var tail := [Fire(SpeechRecorded(name, |data|))]
                          + DecodeReports(name, old(text), old(decoder).None?, decodedPhrase, stopDecoded);
        assert log == listening + tail;
        Concat3(old(log), [SetState(Listening, old(text))], tail,
                ListenReports(name, old(text), old(decoder).None?, |data|, decodedPhrase, false, stopDecoded));
      }
    }

    /** After a finished recording: fire `speech_recorded` with its size, then decode it. */
    method AnnounceAndDecode(data: seq<byte>, stopDecoded: bool, recognize: Recognizer)
      requires Valid() && decodedPhrase == None && !terminated
      modifies this
      ensures Valid()
      ensures decodedPhrase == recognize(Decoder(paths), data)
      ensures log == old(log) + ([Fire(SpeechRecorded(name, |data|))]
                                 + DecodeReports(name, old(text), old(decoder).None?, decodedPhrase, stopDecoded))
      ensures decoder == Some(Decoder(paths))
      ensures text == (if stopDecoded then old(text) else decodedPhrase)
      ensures terminated == stopDecoded
    {
      log := log + [Fire(SpeechRecorded(name, |data|))];
      Decode(data, stopDecoded, recognize);
    }

    /**
     * The decode stage shared by both services: set `decoding`, load the
     * decoder if needed, run it, and unless terminated meanwhile go back to
     * `idle` with the phrase and fire `speech_to_text`.
     */
    method Decode(data: seq<byte>, stopDecoded: bool, recognize: Recognizer)
      requires Valid() && decodedPhrase == None && !terminated
      modifies this
      ensures Valid()
      ensures decodedPhrase == recognize(Decoder(paths), data)
      ensures log == old(log) + DecodeReports(name, old(text), old(decoder).None?, decodedPhrase, stopDecoded)
      ensures decoder == Some(Decoder(paths))
      ensures text == (if stopDecoded then old(text) else decodedPhrase)
      ensures terminated == stopDecoded
    {
      log := log + [SetState(Decoding, text)];
      LoadDecoder();
      RunDecoder(data, recognize);
      ghost var loaded := log;
      terminated := stopDecoded;
      if !terminated {
        text := decodedPhrase;
        log := log + ([SetState(Idle, text)] + [Fire(SpeechToText(name, decodedPhrase))]);
      }
      ghost var head := [SetState(Decoding, old(text))];
      ghost var load := LoadReports(old(decoder).None?, old(text));
      ghost var fin := FinishReports(name, decodedPhrase, stopDecoded);
      assert log == ((old(log) + head) + load) + fin;
      assert ((old(log) + head) + load) + fin == old(log) + (head + (load + fin));
    }

    /**
     * The `decode_wav` service on the uploaded audio `data` and its WAV
     * `format`, with the reports as evidently intended (see
     * DecodeWavReportsAsWritten for the source as written). `data` is what the
     * call provides: the frames read from a named file, or the whole uploaded
     * file, header included, when it comes as `data`; unless it is converted,
     * the decoder gets it as it is. Returns whether the missing-sox error was
     * logged.
     */
    method DecodeWav(format: WavFormat, data: seq<byte>, soxAvailable: bool, soxOutput: seq<byte>,
                     stopDecoded: bool, recognize: Recognizer) returns (soxMissing: bool)
      requires Valid()
      modifies this
      ensures Valid()
      ensures var p := PrepareAudio(format, data, soxAvailable, soxOutput);
        var phrase := recognize(Decoder(paths), p.data);
        && soxMissing == p.soxMissingLogged
        && log == old(log) + DecodeReports(name, old(text), old(decoder).None?, phrase, stopDecoded)
        && decodedPhrase == phrase
        && decoder == Some(Decoder(paths))
        && text == (if stopDecoded then old(text) else phrase)
        && terminated == stopDecoded
    {
      decodedPhrase := None;
      terminated := false;
      var p := PrepareAudio(format, data, soxAvailable, soxOutput);
      soxMissing := p.soxMissingLogged;
      Decode(p.data, stopDecoded, recognize);
    }

    /**
     * On Home Assistant's stop event: mark the component terminated. The
     * methods above do not read `terminated`: where a stop arrives during a
     * service is their `stopRecorded` / `stopDecoded` input instead.
     */
    method Terminate()
      modifies this`terminated
      ensures terminated
    {
      terminated := true;
    }

    /** The `reset` service: drop the cached decoder so that the next decode loads it again. */
    method Reset()
      requires Valid()
      modifies this`decoder
      ensures Valid() && decoder == None
    {
      decoder := None;
    }
  }
}

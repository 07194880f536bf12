/**
 * The recording state machine of the pocketsphinx listener: PyAudio calls
 * `stream_callback` once per fixed-size microphone buffer, together with the
 * voice-activity verdict for that buffer, and the callback decides whether the
 * buffer belongs to the phrase being recorded and when the phrase is complete.
 *
 * The value-level `StepState` is the specification of one callback; the class
 * `PhraseRecorder` holds the callback's nonlocal variables as fields and its
 * method `StreamCallback` is proved to take exactly that step.
 */
module Recorder {

  newtype byte = x: int | 0 <= x < 256

  /** One microphone buffer of raw PCM bytes. */
  type Frame = seq<byte>

  /** One callback's input: the buffer and the VAD verdict for it. */
  datatype Input = Input(frame: Frame, isSpeech: bool)

  /**
   * Reload values of the three counters, fixed per session by ceiling
   * divisions of the configured durations (see ListenConfig.BufferCount).
   */
  datatype Counts = Counts(maxReload: nat, silenceReload: nat, minReload: nat)

  /** The callback's nonlocal state; `recorded` keeps the appended buffers one by one. */
  datatype RecState = RecState(
    maxBuffers: int,
    silenceBuffers: int,
    minPhraseBuffers: int,
    inPhrase: bool,
    afterPhrase: bool,
    finished: bool,
    recorded: seq<Frame>)

  /** The bytes of the recording, as the bytearray `recorded_data` holds them. */
  function Flatten(frames: seq<Frame>): seq<byte>
  {
    if frames == [] then [] else Flatten(frames[..|frames| - 1]) + frames[|frames| - 1]
  }

  lemma FlattenAppend(frames: seq<Frame>, f: Frame)
    ensures Flatten(frames + [f]) == Flatten(frames) + f
  {
    assert (frames + [f])[..|frames|] == frames;
  }

  /**
   * Invariant of the callback state: trailing silence is only entered from
   * inside a phrase once the minimum window is used up, and both counters stay
   * between zero and their reload value.
   */
  predicate Inv(c: Counts, s: RecState)
  {
    && (s.afterPhrase ==> s.inPhrase && s.minPhraseBuffers == 0)
    && 0 <= s.minPhraseBuffers <= c.minReload
    && 0 <= s.silenceBuffers <= c.silenceReload
  }

  /** The state at the start of a listen session. */
  function Initial(c: Counts): (s: RecState)
    ensures Inv(c, s)
    ensures !s.inPhrase && !s.afterPhrase && !s.finished && s.recorded == []
  {
    RecState(c.maxReload, c.silenceReload, c.minReload, false, false, false, [])
  }

  /** Whether this callback exhausts the timeout counter. */
  predicate TimesOut(s: RecState)
  {
    s.maxBuffers - 1 <= 0
  }

  /** `in_phrase` and `after_phrase` as the phrase logic sees them, after the timeout check. */
  predicate Active(s: RecState)
  {
    s.inPhrase && !TimesOut(s)
  }

  predicate Armed(s: RecState)
  {
    s.afterPhrase && !TimesOut(s)
  }

  /** One call of the callback with buffer `buf` and VAD verdict `isSpeech`. */
  function StepState(c: Counts, s: RecState, buf: Frame, isSpeech: bool): (r: RecState)
    ensures r.maxBuffers == s.maxBuffers - 1
    ensures r.recorded == s.recorded || r.recorded == s.recorded + [buf]
    ensures s.finished ==> r.finished
    ensures Inv(c, s) ==> Inv(c, r)
  {
    Classify(c, TimeoutCheck(s), buf, isSpeech)
  }

  /** The first part of a callback: count the buffer against the timeout. */
  function TimeoutCheck(s: RecState): (t: RecState)
    ensures t.maxBuffers == s.maxBuffers - 1
    ensures t.recorded == s.recorded && t.silenceBuffers == s.silenceBuffers && t.minPhraseBuffers == s.minPhraseBuffers
    ensures t.finished <==> s.finished || TimesOut(s)
    ensures t.inPhrase <==> Active(s)
    ensures t.afterPhrase <==> Armed(s)
  {
    if TimesOut(s)
    then s.(maxBuffers := s.maxBuffers - 1, finished := true, inPhrase := false, afterPhrase := false)
    else s.(maxBuffers := s.maxBuffers - 1)
  }

  /** The second part: classify the buffer against the phrase state. */
  function Classify(c: Counts, t: RecState, buf: Frame, isSpeech: bool): (r: RecState)
    ensures Inv(c, t) ==> Inv(c, r)
  {
    if isSpeech && !t.inPhrase then
      t.(inPhrase := true, afterPhrase := false, recorded := t.recorded + [buf], minPhraseBuffers := c.minReload)
    else if t.inPhrase && t.minPhraseBuffers > 0 then
      t.(recorded := t.recorded + [buf], minPhraseBuffers := t.minPhraseBuffers - 1)
    else if t.inPhrase && isSpeech then
      t.(recorded := t.recorded + [buf])
    else if !isSpeech then
      ClassifyNonSpeech(c, t, buf)
    else
      t
  }

  /** A non-speech buffer outside the minimum window: trailing silence, completion or arming. */
  function ClassifyNonSpeech(c: Counts, t: RecState, buf: Frame): (r: RecState)
    ensures Inv(c, t) && !(t.inPhrase && t.minPhraseBuffers > 0) ==> Inv(c, r)
  {
    if t.afterPhrase && t.silenceBuffers > 0 then
      t.(recorded := t.recorded + [buf], silenceBuffers := t.silenceBuffers - 1)
    else if t.afterPhrase && t.silenceBuffers <= 0 then
      t.(recorded := t.recorded + [buf], finished := true, inPhrase := false, afterPhrase := false)
    else if t.inPhrase && t.minPhraseBuffers <= 0 then
      t.(afterPhrase := true, silenceBuffers := c.silenceReload)
    else
      t
  }

  /** What a single callback does, case by case. */
  lemma StepCases(c: Counts, s: RecState, buf: Frame, isSpeech: bool)
    requires Inv(c, s)
    ensures var r := StepState(c, s, buf, isSpeech);
      // the timeout sets `finished` and clears both flags, but keeps the recording
      && (TimesOut(s) ==> r.finished)
      && (TimesOut(s) && !isSpeech ==> !r.inPhrase && !r.afterPhrase && r.recorded == s.recorded)
      // a speech buffer outside a phrase (also right after a timeout) starts a new one
      && (isSpeech && !Active(s) ==>
            && r.inPhrase && !r.afterPhrase && r.minPhraseBuffers == c.minReload
            && r.recorded == s.recorded + [buf])
      // inside the minimum window every buffer is recorded, whatever the VAD says
      && (Active(s) && s.minPhraseBuffers > 0 ==>
            && r.inPhrase && !r.afterPhrase && r.minPhraseBuffers == s.minPhraseBuffers - 1
            && r.recorded == s.recorded + [buf] && r.finished == s.finished)
      // speech after the minimum window, also during trailing silence, is recorded
      // and leaves the silence counter alone
      && (Active(s) && s.minPhraseBuffers == 0 && isSpeech ==>
            && r.inPhrase && r.afterPhrase == s.afterPhrase && r.silenceBuffers == s.silenceBuffers
            && r.recorded == s.recorded + [buf] && r.finished == s.finished)
      // the first non-speech buffer after the window arms trailing silence and is dropped
      && (Active(s) && s.minPhraseBuffers == 0 && !s.afterPhrase && !isSpeech ==>
            && r.inPhrase && r.afterPhrase && r.silenceBuffers == c.silenceReload
            && r.recorded == s.recorded && r.finished == s.finished)
      // trailing silence is recorded while the silence counter runs down
      && (Armed(s) && !isSpeech && s.silenceBuffers > 0 ==>
            && r.inPhrase && r.afterPhrase && r.silenceBuffers == s.silenceBuffers - 1
            && r.recorded == s.recorded + [buf] && r.finished == s.finished)
      // the first non-speech buffer with the silence counter used up completes the phrase
      && (Armed(s) && !isSpeech && s.silenceBuffers <= 0 ==>
            && r.finished && !r.inPhrase && !r.afterPhrase
            && r.recorded == s.recorded + [buf])
      // non-speech outside a phrase is ignored
      && (!Active(s) && !isSpeech ==> !r.inPhrase && r.recorded == s.recorded)
      // `finished` is set exactly by a timeout or a completed phrase, and never reset
      && (r.finished <==> s.finished || TimesOut(s) || (Armed(s) && !isSpeech && s.silenceBuffers <= 0))
  {
  }

  /** The state after the callback has been called with each of `ins`, in order. */
  function Run(c: Counts, s: RecState, ins: seq<Input>): (r: RecState)
    ensures r.maxBuffers == s.maxBuffers - |ins|
    ensures Inv(c, s) ==> Inv(c, r)
    ensures s.finished ==> r.finished
    ensures |s.recorded| <= |r.recorded| <= |s.recorded| + |ins|
    decreases |ins|
  {
    if |ins| == 0 then s
    else
      var last := ins[|ins| - 1];
      StepState(c, Run(c, s, ins[..|ins| - 1]), last.frame, last.isSpeech)
  }

  lemma RunSnoc(c: Counts, s: RecState, ins: seq<Input>, x: Input)
    ensures Run(c, s, ins + [x]) == StepState(c, Run(c, s, ins), x.frame, x.isSpeech)
  {
    assert (ins + [x])[..|ins|] == ins;
  }

  /** Feeding `a` and then `b` is feeding `a + b`. */
  lemma {:induction false} RunAppend(c: Counts, s: RecState, a: seq<Input>, b: seq<Input>)
    ensures Run(c, s, a + b) == Run(c, Run(c, s, a), b)
    decreases |b|
  {
    if b == [] {
      assert a + b == a;
    } else {
      var b' := b[..|b| - 1];
      var x := b[|b| - 1];
      assert a + b == (a + b') + [x];
      assert b == b' + [x];
      RunSnoc(c, s, a + b', x);
      RunAppend(c, s, a, b');
      RunSnoc(c, Run(c, s, a), b', x);
    }
  }

  /** The buffers of a sequence of inputs. */
  function Frames(ins: seq<Input>): (fs: seq<Frame>)
    ensures |fs| == |ins|
    ensures forall i :: 0 <= i < |ins| ==> fs[i] == ins[i].frame
  {
    seq(|ins|, i requires 0 <= i < |ins| => ins[i].frame)
  }

  /** `xs` is `ys` with some elements left out, order kept. */
  predicate IsSubsequence<T(==)>(xs: seq<T>, ys: seq<T>)
    decreases |ys|
  {
    if ys == [] then xs == []
    else
      || IsSubsequence(xs, ys[..|ys| - 1])
      || (xs != [] && xs[|xs| - 1] == ys[|ys| - 1] && IsSubsequence(xs[..|xs| - 1], ys[..|ys| - 1]))
  }

  lemma {:induction false} SubsequenceLength<T>(xs: seq<T>, ys: seq<T>)
    requires IsSubsequence(xs, ys)
    ensures |xs| <= |ys|
    decreases |ys|
  {
    if ys != [] {
      if IsSubsequence(xs, ys[..|ys| - 1]) {
        SubsequenceLength(xs, ys[..|ys| - 1]);
      } else {
        SubsequenceLength(xs[..|xs| - 1], ys[..|ys| - 1]);
      }
    }
  }

  /**
   * The recording is append-only, and what the callbacks add to it is an
   * in-order subsequence of the buffers they were given.
   */
  lemma {:induction false} RunRecordsSubsequence(c: Counts, s: RecState, ins: seq<Input>)
    ensures s.recorded <= Run(c, s, ins).recorded
    ensures IsSubsequence(Run(c, s, ins).recorded[|s.recorded|..], Frames(ins))
    decreases |ins|
  {
    var k := |s.recorded|;
    if ins == [] {
      assert Run(c, s, ins).recorded[k..] == [];
    } else {
      var p := ins[..|ins| - 1];
      var x := ins[|ins| - 1];
      var q := Run(c, s, p);
      RunRecordsSubsequence(c, s, p);
      var r := Run(c, s, ins);
      assert Frames(ins)[..|ins| - 1] == Frames(p);
      assert r == StepState(c, q, x.frame, x.isSpeech);
      if r.recorded == q.recorded {
        assert IsSubsequence(r.recorded[k..], Frames(ins)[..|ins| - 1]);
      } else {
        assert r.recorded == q.recorded + [x.frame];
        assert r.recorded[k..] == q.recorded[k..] + [x.frame];
        assert r.recorded[k..][..|r.recorded[k..]| - 1] == q.recorded[k..];
      }
    }
  }

  /** The recording never holds more buffers than there were callbacks. */
  lemma FrameCountBound(c: Counts, ins: seq<Input>)
    ensures |Run(c, Initial(c), ins).recorded| <= |ins|
    ensures IsSubsequence(Run(c, Initial(c), ins).recorded, Frames(ins))
  {
    RunRecordsSubsequence(c, Initial(c), ins);
    assert Run(c, Initial(c), ins).recorded[0..] == Run(c, Initial(c), ins).recorded;
    SubsequenceLength(Run(c, Initial(c), ins).recorded, Frames(ins));
  }

  /** After `max_buffers` callbacks (at least one) the session is finished by the timeout. */
  lemma RunTimesOut(c: Counts, s: RecState, ins: seq<Input>)
    requires |ins| >= 1 && |ins| >= s.maxBuffers
    ensures Run(c, s, ins).finished
  {
    var p := ins[..|ins| - 1];
    var q := Run(c, s, p);
    assert TimesOut(q);
  }

  /** No input is a speech buffer. */
  predicate NoSpeech(ins: seq<Input>)
  {
    forall i :: 0 <= i < |ins| ==> !ins[i].isSpeech
  }

  /**
   * Inside the minimum window every buffer is recorded whatever its verdict,
   * and the minimum counter drops by one per buffer.
   */
  lemma {:induction false} MinWindow(c: Counts, s: RecState, ins: seq<Input>)
    requires s.inPhrase && !s.afterPhrase
    requires |ins| <= s.minPhraseBuffers && |ins| < s.maxBuffers
    ensures var r := Run(c, s, ins);
      && r.inPhrase && !r.afterPhrase && r.finished == s.finished
      && r.minPhraseBuffers == s.minPhraseBuffers - |ins|
      && r.silenceBuffers == s.silenceBuffers
      && r.recorded == s.recorded + Frames(ins)
    decreases |ins|
  {
    if ins != [] {
      var p := ins[..|ins| - 1];
      MinWindow(c, s, p);
      assert Frames(ins) == Frames(p) + [ins[|ins| - 1].frame];
    }
  }

  /**
   * In trailing silence each non-speech buffer is recorded and counts the
   * silence counter down.
   */
  lemma {:induction false} SilenceWindow(c: Counts, s: RecState, ins: seq<Input>)
    requires s.inPhrase && s.afterPhrase && s.minPhraseBuffers <= 0 && NoSpeech(ins)
    requires |ins| <= s.silenceBuffers && |ins| < s.maxBuffers
    ensures var r := Run(c, s, ins);
      && r.inPhrase && r.afterPhrase && r.finished == s.finished
      && r.minPhraseBuffers == s.minPhraseBuffers
      && r.silenceBuffers == s.silenceBuffers - |ins|
      && r.recorded == s.recorded + Frames(ins)
    decreases |ins|
  {
    if ins != [] {
      var p := ins[..|ins| - 1];
      assert NoSpeech(p) by {
        forall i | 0 <= i < |p| ensures !p[i].isSpeech {
          assert p[i] == ins[i];
        }
      }
      SilenceWindow(c, s, p);
      assert Frames(ins) == Frames(p) + [ins[|ins| - 1].frame];
    }
  }

  /** Where the phrase of `PhraseCompletes` arms trailing silence. */
  function ArmIndex(c: Counts): nat
  {
    c.minReload + 1
  }

  /**
   * The shape of a whole phrase: a speech buffer, the `minReload` buffers of
   * the minimum window (any verdicts), then only non-speech buffers: one that
   * arms trailing silence, `silenceReload` recorded ones and one that ends it.
   */
  predicate PhraseShape(c: Counts, s: RecState, ins: seq<Input>)
  {
    && !s.inPhrase
    && |ins| == c.minReload + c.silenceReload + 3 < s.maxBuffers
    && ins[0].isSpeech
    && forall i :: ArmIndex(c) <= i < |ins| ==> !ins[i].isSpeech
  }

  /** Feeding a prefix and then the rest of it. */
  lemma RunSplit(c: Counts, s: RecState, ins: seq<Input>, i: nat, j: nat)
    requires i <= j <= |ins|
    ensures Run(c, s, ins[..j]) == Run(c, Run(c, s, ins[..i]), ins[i..j])
  {
    assert ins[..j] == ins[..i] + ins[i..j];
    RunAppend(c, s, ins[..i], ins[i..j]);
  }

  /** One more callback after a prefix. */
  lemma RunNext(c: Counts, s: RecState, ins: seq<Input>, k: nat)
    requires k < |ins|
    ensures Run(c, s, ins[..k + 1]) == StepState(c, Run(c, s, ins[..k]), ins[k].frame, ins[k].isSpeech)
  {
    assert ins[..k + 1] == ins[..k] + [ins[k]];
    RunSnoc(c, s, ins[..k], ins[k]);
  }

  lemma NoSpeechSlice(c: Counts, s: RecState, ins: seq<Input>, k: nat)
    requires PhraseShape(c, s, ins) && ArmIndex(c) < k <= |ins|
    ensures NoSpeech(ins[ArmIndex(c) + 1..k])
  {
    var part := ins[ArmIndex(c) + 1..k];
    forall i | 0 <= i < |part| ensures !part[i].isSpeech {
      assert part[i] == ins[ArmIndex(c) + 1 + i];
    }
  }

  /**
   * Re-associates a three-part concatenation; stated on its own so that the
   * proofs using it do not ask the solver to rediscover associativity.
   */
  lemma Concat3<T>(x: seq<T>, y: seq<T>, z: seq<T>, w: seq<T>)
    requires w == y + z
    ensures (x + y) + z == x + w
  {
  }

  lemma FramesSplit(ins: seq<Input>, i: nat, j: nat)
    requires i <= j <= |ins|
    ensures Frames(ins[..j]) == Frames(ins[..i]) + Frames(ins[i..j])
  {
  }

  /** The arming step: a non-speech buffer right after the minimum window. */
  lemma ArmStep(c: Counts, q: RecState, x: Input)
    requires q.inPhrase && !q.afterPhrase && q.minPhraseBuffers == 0 && q.maxBuffers > 1 && !x.isSpeech
    ensures var r := StepState(c, q, x.frame, x.isSpeech);
      && r.inPhrase && r.afterPhrase && r.minPhraseBuffers == 0
      && r.silenceBuffers == c.silenceReload && r.finished == q.finished
      && r.maxBuffers == q.maxBuffers - 1 && r.recorded == q.recorded
  {
  }

  /** The completing step: a non-speech buffer when the silence counter is used up. */
  lemma CompleteStep(c: Counts, q: RecState, x: Input)
    requires q.afterPhrase && q.silenceBuffers <= 0 && q.maxBuffers > 1 && !x.isSpeech
    requires q.inPhrase && q.minPhraseBuffers <= 0
    ensures var r := StepState(c, q, x.frame, x.isSpeech);
      r.finished && !r.inPhrase && !r.afterPhrase && r.recorded == q.recorded + [x.frame]
  {
  }

  /** The state once trailing silence is armed. */
  lemma PhraseArmed(c: Counts, s: RecState, ins: seq<Input>)
    requires PhraseShape(c, s, ins)
    ensures var a := ArmIndex(c);
      var s3 := Run(c, s, ins[..a + 1]);
      && s3.inPhrase && s3.afterPhrase && s3.minPhraseBuffers == 0
      && s3.silenceBuffers == c.silenceReload && s3.finished == s.finished
      && s3.maxBuffers == s.maxBuffers - (a + 1)
      && s3.recorded == s.recorded + Frames(ins[..a])
  {
    var a := ArmIndex(c);
    PhraseStart(c, s, ins);
    var s1 := Run(c, s, ins[..1]);
    RunSplit(c, s, ins, 1, a);
    MinWindow(c, s1, ins[1..a]);
    var s2 := Run(c, s, ins[..a]);
    FramesSplit(ins, 1, a);
    Concat3(s.recorded, Frames(ins[..1]), Frames(ins[1..a]), Frames(ins[..a]));
    assert s2.recorded == s.recorded + Frames(ins[..a]);
    RunNext(c, s, ins, a);
    ArmStep(c, s2, ins[a]);
  }

  /** The state after the speech buffer that starts a phrase. */
  lemma PhraseStart(c: Counts, s: RecState, ins: seq<Input>)
    requires PhraseShape(c, s, ins)
    ensures var s1 := Run(c, s, ins[..1]);
      && s1.inPhrase && !s1.afterPhrase && s1.minPhraseBuffers == c.minReload
      && s1.finished == s.finished && s1.maxBuffers == s.maxBuffers - 1
      && s1.recorded == s.recorded + Frames(ins[..1])
  {
    assert ins[..1] == [] + [ins[0]];
    RunSnoc(c, s, [], ins[0]);
  }

  /**
   * Trailing silence once armed: `silenceBuffers` recorded non-speech buffers
   * and one more that completes the phrase, recorded as well.
   */
  lemma SilenceCompletes(c: Counts, q: RecState, rest: seq<Input>)
    requires q.inPhrase && q.afterPhrase && q.minPhraseBuffers <= 0 && NoSpeech(rest)
    requires q.silenceBuffers >= 0 && |rest| == q.silenceBuffers + 1 && |rest| < q.maxBuffers
    ensures var r := Run(c, q, rest);
      r.finished && !r.inPhrase && !r.afterPhrase && r.recorded == q.recorded + Frames(rest)
  {
    var m := |rest| - 1;
    var p := rest[..m];
    assert NoSpeech(p) by {
      forall i | 0 <= i < |p| ensures !p[i].isSpeech {
        assert p[i] == rest[i];
      }
    }
    SilenceWindow(c, q, p);
    RunNext(c, q, rest, m);
    assert rest[..m + 1] == rest;
    CompleteStep(c, Run(c, q, p), rest[m]);
    assert Frames(rest) == Frames(p) + [rest[m].frame];
  }

  /**
   * A phrase of that shape completes on its last buffer: everything but the
   * arming buffer is recorded, `finished` is set and both flags are cleared.
   * Note that nothing is asked of the verdicts inside the minimum window.
   */
  lemma PhraseCompletes(c: Counts, s: RecState, ins: seq<Input>)
    requires PhraseShape(c, s, ins)
    ensures var r := Run(c, s, ins);
      && r.finished && !r.inPhrase && !r.afterPhrase
      && r.recorded == s.recorded + Frames(ins[..ArmIndex(c)]) + Frames(ins[ArmIndex(c) + 1..])
  {
    var a := ArmIndex(c);
    var n := |ins|;
    var s3 := Run(c, s, ins[..a + 1]);
    RunSplit(c, s, ins, a + 1, n);
    assert ins[..n] == ins && ins[a + 1..n] == ins[a + 1..];
    PhraseArmed(c, s, ins);
    NoSpeechSlice(c, s, ins, n);
    SilenceCompletes(c, s3, ins[a + 1..]);
  }

  /** ... and not before: no strict prefix of it changes `finished`. */
  lemma PhraseNotFinishedEarly(c: Counts, s: RecState, ins: seq<Input>, k: nat)
    requires PhraseShape(c, s, ins) && k < |ins|
    ensures Run(c, s, ins[..k]).finished == s.finished
  {
    var a := ArmIndex(c);
    if k == 0 {
      assert ins[..k] == [];
    } else if k <= a {
      PhraseStart(c, s, ins);
      RunSplit(c, s, ins, 1, k);
      MinWindow(c, Run(c, s, ins[..1]), ins[1..k]);
    } else {
      PhraseArmed(c, s, ins);
      RunSplit(c, s, ins, a + 1, k);
      NoSpeechSlice(c, s, ins, k);
      SilenceWindow(c, Run(c, s, ins[..a + 1]), ins[a + 1..k]);
    }
  }

  /**
   * The default configuration (counts 67 / 17 / 1000): 67 speech buffers and
   * then 20 non-speech buffers complete one phrase of 86 buffers; after the
   * first 17 non-speech buffers the phrase is still open.
   */
  lemma DefaultPhrase(speech: seq<Frame>, quiet: seq<Frame>)
    requires |speech| == 67 && |quiet| == 20
    ensures var c := Counts(1000, 17, 67);
      var ins := Spoken(speech) + Silent(quiet);
      && !Run(c, Initial(c), ins[..84]).finished
      && Run(c, Initial(c), ins).finished
      && |Run(c, Initial(c), ins).recorded| == 86
  {
    var c := Counts(1000, 17, 67);
    var ins := Spoken(speech) + Silent(quiet);
    assert forall i :: ArmIndex(c) <= i < |ins| ==> ins[i] == Silent(quiet)[i - 67];
    assert PhraseShape(c, Initial(c), ins);
    PhraseCompletes(c, Initial(c), ins);
    PhraseNotFinishedEarly(c, Initial(c), ins, 84);
  }

  /** Speech / non-speech inputs carrying the given buffers. */
  function Spoken(frames: seq<Frame>): (ins: seq<Input>)
    ensures |ins| == |frames|
    ensures forall i :: 0 <= i < |ins| ==> ins[i] == Input(frames[i], true)
  {
    seq(|frames|, i requires 0 <= i < |frames| => Input(frames[i], true))
  }

  function Silent(frames: seq<Frame>): (ins: seq<Input>)
    ensures |ins| == |frames| && NoSpeech(ins)
    ensures forall i :: 0 <= i < |ins| ==> ins[i].frame == frames[i]
  {
    seq(|frames|, i requires 0 <= i < |frames| => Input(frames[i], false))
  }

  /**
   * The flag a PyAudio stream callback returns. The callback only ever
   * returns `paContinue`; PyAudio's other flags are not modelled.
   */
  datatype StreamFlag = Continue

  /**
   * The nonlocal variables of `stream_callback` as fields. `recordedData` is
   * the bytearray; the ghost `frames` remembers which buffers it was built from.
   */
  class PhraseRecorder {
    const counts: Counts
    var maxBuffers: int
    var silenceBuffers: int
    var minPhraseBuffers: int
    var inPhrase: bool
    var afterPhrase: bool
    var finished: bool
    var recordedData: seq<byte>
    ghost var frames: seq<Frame>

    ghost function State(): RecState
      reads this
    {
      RecState(maxBuffers, silenceBuffers, minPhraseBuffers, inPhrase, afterPhrase, finished, frames)
    }

    ghost predicate Valid()
      reads this
    {
      Inv(counts, State()) && recordedData == Flatten(frames)
    }

    /** The recording state as `async_listen` sets it up before opening the stream. */
    constructor (counts: Counts)
      ensures Valid() && this.counts == counts && State() == Initial(counts)
    {
      this.counts := counts;
      maxBuffers := counts.maxReload;
      silenceBuffers := counts.silenceReload;
      minPhraseBuffers := counts.minReload;
      inPhrase := false;
      afterPhrase := false;
      finished := false;
      recordedData := [];
      frames := [];
    }

    /**
     * One callback: takes exactly the step `StepState` describes, signals the
     * recorded event whenever `finished` holds, and hands the buffer back with
     * the continue flag.
     */
    method StreamCallback(buf: Frame, isSpeech: bool) returns (echo: Frame, flag: StreamFlag, signal: bool)
      requires Valid()
      modifies this
      ensures Valid()
      ensures State() == StepState(counts, old(State()), buf, isSpeech)
      ensures recordedData == old(recordedData) || recordedData == old(recordedData) + buf
      ensures echo == buf && flag == Continue && signal == finished
    {
      CountTimeout();
      ClassifyBuffer(buf, isSpeech);
      signal := finished;
      echo, flag := buf, Continue;
    }

    /** The first block of the callback: count the buffer against the timeout. */
    method CountTimeout()
      requires Valid()
      modifies this`maxBuffers, this`finished, this`inPhrase, this`afterPhrase
      ensures Valid()
      ensures State() == TimeoutCheck(old(State()))
    {
      maxBuffers := maxBuffers - 1;
      if maxBuffers <= 0 {
        finished := true;
        inPhrase := false;
        afterPhrase := false;
      }
    }

    /** The second block of the callback: classify the buffer against the phrase state. */
    method ClassifyBuffer(buf: Frame, isSpeech: bool)
      requires Valid()
      modifies this
      ensures Valid()
      ensures State() == Classify(counts, old(State()), buf, isSpeech)
      ensures recordedData == old(recordedData) || recordedData == old(recordedData) + buf
    {
      ghost var t := State();
      if isSpeech && !inPhrase {
        inPhrase := true;
        afterPhrase := false;
        Append(buf);
        minPhraseBuffers := counts.minReload;
        assert State() == t.(inPhrase := true, afterPhrase := false, recorded := t.recorded + [buf], minPhraseBuffers := counts.minReload);
      } else if inPhrase && minPhraseBuffers > 0 {
        Append(buf);
        minPhraseBuffers := minPhraseBuffers - 1;
        assert State() == t.(recorded := t.recorded + [buf], minPhraseBuffers := t.minPhraseBuffers - 1);
      } else if inPhrase && isSpeech {
        Append(buf);
        assert State() == t.(recorded := t.recorded + [buf]);
      } else if !isSpeech {
        ClassifyNonSpeechBuffer(buf);
      }
    }

    /** The non-speech branch of the second block. */
    method ClassifyNonSpeechBuffer(buf: Frame)
      requires Valid() && !(inPhrase && minPhraseBuffers > 0)
      modifies this
      ensures Valid()
      ensures State() == ClassifyNonSpeech(counts, old(State()), buf)
      ensures recordedData == old(recordedData) || recordedData == old(recordedData) + buf
    {
      if afterPhrase && silenceBuffers > 0 {
        CountSilence(buf);
      } else if afterPhrase && silenceBuffers <= 0 {
        CompletePhrase(buf);
      } else if inPhrase && minPhraseBuffers <= 0 {
        afterPhrase := true;
        silenceBuffers := counts.silenceReload;
      }
    }

    /** Trailing silence: record the buffer and count the silence counter down. */
    method CountSilence(buf: Frame)
      requires Valid() && afterPhrase && silenceBuffers > 0
      modifies this`recordedData, this`frames, this`silenceBuffers
      ensures Valid()
      ensures State() == old(State()).(recorded := old(frames) + [buf], silenceBuffers := old(silenceBuffers) - 1)
      ensures recordedData == old(recordedData) + buf
    {
      Append(buf);
      silenceBuffers := silenceBuffers - 1;
    }

    /** The end of trailing silence: record the buffer, set `finished` and leave the phrase. */
    method CompletePhrase(buf: Frame)
      requires Valid()
      modifies this`recordedData, this`frames, this`finished, this`inPhrase, this`afterPhrase
      ensures Valid()
      ensures State() == old(State()).(recorded := old(frames) + [buf], finished := true, inPhrase := false, afterPhrase := false)
      ensures recordedData == old(recordedData) + buf
    {
      Append(buf);
      finished := true;
      inPhrase := false;
      afterPhrase := false;
    }

    /** `recorded_data += buf` */
    method Append(buf: Frame)
      requires recordedData == Flatten(frames)
      modifies this`recordedData, this`frames
      ensures frames == old(frames) + [buf]
      ensures recordedData == old(recordedData) + buf
      ensures recordedData == Flatten(frames)
    {
      FlattenAppend(frames, buf);
      recordedData := recordedData + buf;
      frames := frames + [buf];
    }
  }
}

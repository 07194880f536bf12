# Pocketsphinx speech-to-text and intent table, modelled in Dafny

This project models two Home Assistant custom components.

- **`stt_pocketsphinx`**, a speech-to-text component.
  - Its `listen` service records one spoken phrase from the microphone. A PyAudio callback is driven by a WebRTC voice-activity detector (VAD).
  - It decodes the phrase with a Pocketsphinx decoder. The decoder is loaded the first time it is needed and then cached.
  - It reports progress by setting the state of the `stt_pocketsphinx.pocketsphinx` entity (`idle`, `loading`, `listening`, `decoding`) and by firing `speech_recorded` and `speech_to_text` events.
  - Its `decode_wav` service decodes uploaded WAV audio. Audio not in 16 kHz, 16-bit mono is first converted with sox.
  - Its `reset` service drops the cached decoder.
- **`intent_table`**, which zips three configured lists into a phrase→topic and a phrase→payload table. Its `parse` service publishes MQTT messages for a spoken phrase.

Modules:

- `Wrappers`: `Option` and `Result`.
- `ListenConfig`: how the configured durations become buffer counts (`int(math.ceil(seconds / seconds_per_buffer))`), and the audio device index.
- `Recorder`: the callback state machine.
  - `StepState` is one callback on values. `Run` is a sequence of callbacks.
  - The lemmas cover the timeout, the minimum-phrase window, trailing silence and phrase completion.
  - The class `PhraseRecorder` holds the callback's mutable variables. Its `StreamCallback` method is proved to take exactly the `StepState` step.
- `SttPocketsphinx`: the component.
  - The class `Component` holds the decoder cache, the shared `decoded_phrase`/`terminated` variables and the entity's `text` attribute.
  - Home Assistant appears only as `log`, the sequence of state changes and event firings made, in order.
  - The report functions (`ListenReports`, `DecodeReports`) fix that order. The lemmas prove that it follows the entity lifecycle.
- `IntentTable`: `Setup`, `ZipDict`, `Route`, and the class `IntentRouter`, whose `Parse` appends to an `outbox` of MQTT publishes.

External behaviour is passed in as parameters:

- the VAD verdict of each buffer (`Input.isSpeech`);
- the buffers PyAudio delivers (`deliveries`);
- the decoder's hypothesis (`recognize`, a function of the decoder and the audio);
- whether sox is installed and what it outputs;
- whether Home Assistant's stop event arrived while recording (`stopRecorded`) or while decoding (`stopDecoded`).

What the code does, where a reader might expect otherwise (the model follows the code):

- **A default phrase is 86 buffers.** With the default configuration (counts 67 / 17 / 1000), 67 speech buffers followed by 20 non-speech buffers are one input that completes the phrase on its last buffer and records 86 of them:
  - the starting buffer;
  - 67 buffers of the minimum window, whatever their VAD verdict;
  - 17 silence buffers;
  - the completing buffer.

  The first non-speech buffer after the minimum window arms trailing silence and is dropped (`Recorder.DefaultPhrase`).
- **A timeout keeps the recording.** It sets `finished` and clears the phrase flags, but the recorded data is kept and decoded.
- **Short noise spikes are not suppressed.** The comment on `min_sec` (stt_pocketsphinx.py:67-68) says that anything shorter is ignored, to avoid hisses and pops. But every buffer in the minimum window is recorded whatever its verdict (`Recorder.MinWindow`), so a single speech buffer followed by silence still completes a phrase (`Recorder.PhraseCompletes` does not constrain verdicts inside the window).
- **The not-found topic is always the default.** The `intent_table` configuration schema has no key for `mqtt_topic_command_not_found`, so `IntentRouter` always uses `hass/unknown_command`.

## Model

| member | source | states |
|---|---|---|
| ListenConfig.Ceil | custom_components/stt_pocketsphinx.py:221-223 | `math.ceil`: the least integer not below its argument |
| ListenConfig.SecondsPerBuffer | custom_components/stt_pocketsphinx.py:189 | seconds per buffer is positive, and times the sample rate gives the buffer size |
| ListenConfig.BufferCount | custom_components/stt_pocketsphinx.py:221-223 | the count is the least number of buffers whose duration reaches the configured seconds; non-negative for non-negative seconds |
| ListenConfig.CeilScaled | custom_components/stt_pocketsphinx.py:221-223 | `ceil(x / d)` buffers of duration `d` reach `x`, one fewer do not, and the count is non-negative for non-negative `x` |
| ListenConfig.ReloadCount | custom_components/stt_pocketsphinx.py:221-223 | a counter's reload value is the least number of buffers whose duration reaches the configured seconds; it is the ceiling for non-negative durations and zero for non-positive ones |
| ListenConfig.LeastCoverUnique | custom_components/stt_pocketsphinx.py:221-223 | that least number is unique, so the reload value is fixed by its duration |
| ListenConfig.DefaultCounts | custom_components/stt_pocketsphinx.py:88-94 | with the defaults (16000 Hz, 480-sample buffers, 2.0 / 0.5 / 30.0 s) the min, silence and max counts are 67, 17 and 1000 |
| ListenConfig.DeviceIndexChoice | custom_components/stt_pocketsphinx.py:169-171 | the `-1` documented at :53, every negative index and no index all select the default device; a non-negative index is kept; normalising an already normalised index changes nothing |
| Recorder.Initial | custom_components/stt_pocketsphinx.py:221-228 | a listen session starts outside a phrase, unfinished, with nothing recorded, and satisfies the counter invariant |
| Recorder.TimeoutCheck | custom_components/stt_pocketsphinx.py:236-244 | the timeout block decrements the max counter; afterwards `finished` holds exactly when it held before or the decremented counter is at most zero; after it the phrase flags are set only if they were set and the session did not time out; the recording and the other counters are untouched |
| Recorder.StepState | custom_components/stt_pocketsphinx.py:231-283 | one callback decrements the max counter, records nothing or exactly its buffer, never clears `finished`, and keeps the counter invariant |
| Recorder.Classify | custom_components/stt_pocketsphinx.py:246-278 | the phrase logic after the timeout check keeps the counter invariant |
| Recorder.ClassifyNonSpeech | custom_components/stt_pocketsphinx.py:260-278 | a non-speech buffer outside the minimum window keeps the counter invariant |
| Recorder.StepCases | custom_components/stt_pocketsphinx.py:236-278 | one callback, branch by branch: timeout, start of phrase, minimum window, speech after it, arming trailing silence (buffer dropped), silence countdown, completion, ignored non-speech; `finished` is set exactly on timeout or completion |
| Recorder.Run | custom_components/stt_pocketsphinx.py:231-283 | after n callbacks the max counter dropped by n, the invariant holds, `finished` never goes back, and at most n buffers were added |
| Recorder.RunAppend | custom_components/stt_pocketsphinx.py:231-283 | running two batches of buffers one after the other is running their concatenation |
| Recorder.RunRecordsSubsequence | custom_components/stt_pocketsphinx.py:249-269 | recording only appends, and what is appended is a subsequence of the delivered buffers in delivery order |
| Recorder.FrameCountBound | custom_components/stt_pocketsphinx.py:228-269 | a session's recording is a subsequence of the delivered buffers, so never longer than them |
| Recorder.RunTimesOut | custom_components/stt_pocketsphinx.py:236-243 | once as many buffers as the max counter allows were delivered, the session is finished, whatever the VAD said |
| Recorder.MinWindow | custom_components/stt_pocketsphinx.py:254-257 | inside the minimum window every buffer is recorded regardless of its verdict and the min counter drops by one per buffer |
| Recorder.SilenceWindow | custom_components/stt_pocketsphinx.py:263-266 | in trailing silence every non-speech buffer is recorded and the silence counter drops by one per buffer |
| Recorder.PhraseStart | custom_components/stt_pocketsphinx.py:248-253 | a speech buffer outside a phrase starts one, is recorded, and reloads the min counter |
| Recorder.ArmStep | custom_components/stt_pocketsphinx.py:275-278 | the first non-speech buffer after the minimum window arms trailing silence with the silence count and is not recorded |
| Recorder.PhraseArmed | custom_components/stt_pocketsphinx.py:248-278 | after the start, the minimum window and the arming buffer, trailing silence is armed and all but the arming buffer are recorded |
| Recorder.CompleteStep | custom_components/stt_pocketsphinx.py:267-274 | a non-speech buffer with the silence counter used up is recorded, finishes the session and leaves the phrase |
| Recorder.SilenceCompletes | custom_components/stt_pocketsphinx.py:260-274 | once trailing silence is armed, that many recorded non-speech buffers and one more finish the session, leave the phrase and record every one of them |
| Recorder.PhraseCompletes | custom_components/stt_pocketsphinx.py:248-281 | speech start, minimum window, arming buffer, silence count and one more non-speech buffer finish the session with every buffer but the arming one recorded, in order |
| Recorder.PhraseNotFinishedEarly | custom_components/stt_pocketsphinx.py:248-281 | no strict prefix of such a phrase finishes the session |
| Recorder.DefaultPhrase | custom_components/stt_pocketsphinx.py:88-94 | with the default counts, 67 speech then 20 non-speech buffers leave the session unfinished after 84 buffers, finish it after all 87, and record 86 buffers |
| Recorder.PhraseRecorder.constructor | custom_components/stt_pocketsphinx.py:221-228 | the recorder's variables start in the initial state with an empty `recorded_data` |
| Recorder.PhraseRecorder.StreamCallback | custom_components/stt_pocketsphinx.py:231-283 | the callback updates the variables exactly as `StepState`, appends nothing or the buffer to `recorded_data`, returns the buffer with `paContinue`, and signals the recorded event exactly when finished |
| Recorder.PhraseRecorder.CountTimeout | custom_components/stt_pocketsphinx.py:236-243 | the timeout block decrements the max counter and, when it reaches zero, sets `finished` and clears both phrase flags, as `TimeoutCheck` |
| Recorder.PhraseRecorder.ClassifyBuffer | custom_components/stt_pocketsphinx.py:246-278 | the phrase block updates the variables exactly as `Classify` and appends nothing or the buffer |
| Recorder.PhraseRecorder.ClassifyNonSpeechBuffer | custom_components/stt_pocketsphinx.py:260-278 | the non-speech block updates the variables exactly as `ClassifyNonSpeech` and appends nothing or the buffer |
| Recorder.PhraseRecorder.CountSilence | custom_components/stt_pocketsphinx.py:263-266 | in trailing silence the buffer is appended and the silence counter drops by one |
| Recorder.PhraseRecorder.CompletePhrase | custom_components/stt_pocketsphinx.py:267-274 | on completion the buffer is appended, `finished` is set and both phrase flags are cleared |
| Recorder.PhraseRecorder.Append | custom_components/stt_pocketsphinx.py:252 | `recorded_data += buf` (here and at :256, :260, :265, :269) appends the buffer's bytes |
| SttPocketsphinx.SessionCounts | custom_components/stt_pocketsphinx.py:221-223 | each of the max, silence and min counts is the least number of buffers (of `buffer_size / sample_rate` seconds) whose total duration reaches the timeout, silence or minimum duration |
| SttPocketsphinx.DefaultSessionCounts | custom_components/stt_pocketsphinx.py:88-94 | with the default configuration the session counts are 1000 / 17 / 67 |
| SttPocketsphinx.NeedsConversion | custom_components/stt_pocketsphinx.py:413 | a WAV needs conversion exactly when it is not 16 kHz, 16-bit, mono |
| SttPocketsphinx.PrepareAudio | custom_components/stt_pocketsphinx.py:406-444 | conversion is attempted exactly when needed; without sox the error is logged and the data decoded as is; otherwise the converted frames are decoded; whenever no error is logged the decoded audio is in the decoder's format |
| SttPocketsphinx.LoadReports | custom_components/stt_pocketsphinx.py:448-461 | loading reports anything exactly when the cache is empty; it only sets states, `loading` first and `decoding` last, each with the current text |
| SttPocketsphinx.FinishReports | custom_components/stt_pocketsphinx.py:361-373 | a decode that was not terminated sets `idle` with the phrase and then fires `speech_to_text` with it; a terminated one reports nothing more |
| SttPocketsphinx.DecodeReports | custom_components/stt_pocketsphinx.py:319-373 | a decode starts by setting `decoding`; terminated, it fires nothing and never sets `idle`; otherwise it ends with `idle` carrying the phrase and then `speech_to_text` |
| SttPocketsphinx.ListenReports | custom_components/stt_pocketsphinx.py:218-373 | a listen session starts with `listening`; it reports nothing more exactly when terminated while recording; otherwise `speech_recorded` with the size comes next, then `decoding` |
| SttPocketsphinx.DecodeWavReportsAsWritten | custom_components/stt_pocketsphinx.py:393-496 | decode-WAV as written starts with `decoding`, only ever sets states and fires nothing, and never sets `idle` when there is no hypothesis |
| SttPocketsphinx.DecodeParts | custom_components/stt_pocketsphinx.py:321-370 | a decode shows `decoding`, `loading`/`decoding` when the cache is empty, then `idle` unless terminated; its only event is `speech_to_text` unless terminated |
| SttPocketsphinx.ListenParts | custom_components/stt_pocketsphinx.py:213-374 | a listen session shows `listening`, then, unless terminated while recording, the decode's states; it fires `speech_recorded` before the decode's events |
| SttPocketsphinx.ListenLifecycle | custom_components/stt_pocketsphinx.py:213-374 | a listen session follows the entity lifecycle from `idle`; it ends in `idle` exactly when it was not terminated; it shows `loading` exactly when it decodes with an empty cache; it fires `speech_recorded` (with the size) and then `speech_to_text` (with the phrase), each only when not terminated before it |
| SttPocketsphinx.DecodeWavAnnouncesOnce | custom_components/stt_pocketsphinx.py:378-497 | corrected decode-WAV: follows the lifecycle from `idle`, and unless terminated returns to `idle` with the phrase and fires exactly one `speech_to_text` carrying it |
| SttPocketsphinx.AsWrittenNeverAnnounces | custom_components/stt_pocketsphinx.py:484-496 | decode-WAV as written never fires `speech_to_text` |
| SttPocketsphinx.AsWrittenStuckWithoutHypothesis | custom_components/stt_pocketsphinx.py:466-474 | decode-WAV as written never returns to `idle` when the decoder has no hypothesis |
| SttPocketsphinx.Component.constructor | custom_components/stt_pocketsphinx.py:193-209 | set-up: no decoder, no phrase, not terminated, empty text, entity set to `idle` |
| SttPocketsphinx.Component.LoadDecoder | custom_components/stt_pocketsphinx.py:327-333 | the decoder is built from the configured model files only when the cache is empty, with `loading` then `decoding`; a cached decoder is reused silently |
| SttPocketsphinx.Component.RunDecoder | custom_components/stt_pocketsphinx.py:345-349 | the decoded phrase is set to the hypothesis when there is one and left alone otherwise |
| SttPocketsphinx.Component.Record | custom_components/stt_pocketsphinx.py:228-307 | a fresh recorder called with each delivered buffer in order yields the bytes of `Run`'s recording |
| SttPocketsphinx.Component.Recording | custom_components/stt_pocketsphinx.py:228-307 | the bytes a session records are the concatenation of an in-order selection of the delivered buffers |
| SttPocketsphinx.Component.ListenPhrase | custom_components/stt_pocketsphinx.py:213-374 | a stop while recording yields no phrase; otherwise a phrase exactly when the decoder has a hypothesis on the recording; any phrase is the decoder's hypothesis on the concatenation of a subsequence of the delivered buffers, in delivery order |
| SttPocketsphinx.Component.Listen | custom_components/stt_pocketsphinx.py:213-374 | the log grows by exactly `ListenReports` for this session; the phrase is the decoder's hypothesis on the recording; the decoder is cached afterwards unless terminated while recording; `terminated` reflects a stop |
| SttPocketsphinx.Component.AnnounceAndDecode | custom_components/stt_pocketsphinx.py:313-374 | after a recording that was not terminated, `speech_recorded` is fired with the recording's size and then the log grows by exactly `DecodeReports` |
| SttPocketsphinx.Component.Decode | custom_components/stt_pocketsphinx.py:321-370 | the decode stage: the log grows by exactly `DecodeReports`; the phrase is the hypothesis; the text attribute becomes the phrase unless terminated |
| SttPocketsphinx.Component.DecodeWav | custom_components/stt_pocketsphinx.py:378-497 | corrected decode-WAV: `PrepareAudio`, then the decode stage on its output; reports the missing-sox error exactly as `PrepareAudio` does |
| SttPocketsphinx.Component.Terminate | custom_components/stt_pocketsphinx.py:523-527 | Home Assistant's stop event marks the component terminated |
| SttPocketsphinx.Component.Reset | custom_components/stt_pocketsphinx.py:500-503 | the cached decoder is dropped, so the next decode loads it again |
| IntentTable.ZipDict | custom_components/intent_table.py:78-79 | `dict(zip(keys, values))` has exactly the keys of the shorter list's length |
| IntentTable.ZipDictLastWins | custom_components/intent_table.py:78-79 | a duplicated key keeps the value paired with its last occurrence |
| IntentTable.Setup | custom_components/intent_table.py:73-79 | set-up succeeds exactly when topics match phrases and payloads match topics in number; the topic-count assertion is checked first; both tables have the same keys, the configured phrases |
| IntentTable.RouteByConfiguredLists | custom_components/intent_table.py:73-98 | from the configured lists: a phrase at its last position i publishes `topics[i]`/`payloads[i]` then the success message; a phrase not listed publishes itself on the not-found topic |
| IntentTable.IntentRouter.constructor | custom_components/intent_table.py:70-79 | once both set-up assertions pass, the router holds the tables `setup` zips from the configured lists, the configured success topic or `hass/successful_command` when none is configured (:46, :71), the default not-found topic and an empty outbox |
| IntentTable.IntentRouter.Parse | custom_components/intent_table.py:82-99 | `parse` routes the call's `text`, or `unknown_command` without one; a phrase at its last position i in the configured list appends `topics[i]`/`payloads[i]` and then `succcess` on the success topic; an unlisted phrase appends itself on the not-found topic; nothing else is published |

## Left out

- Audio hardware, threads and asyncio: PyAudio streams, `threading.Event` waits and the decode thread are not modelled. PyAudio's buffers are an input sequence. The decode thread is taken to run to completion, even when a stop arrives while it runs.
- The WebRTC VAD and the Pocketsphinx decoder are not modelled. Their answers are inputs (`Input.isSpeech`, `recognize`). The VAD mode check and model paths (`os.path.expanduser`) are not modelled.
- Floating point: durations are exact reals, not IEEE doubles. With the default configuration the two agree on the counts.
- ListenConfig.BufferCount: requires a positive buffer size and sample rate. A zero `sample_rate` raises `ZeroDivisionError` at set-up (stt_pocketsphinx.py:189). A zero `buffer_size` makes `seconds_per_buffer` zero and raises at the first `listen` (:221). Negative sizes pass the `int` schema (:105-106) but are not modelled (the sizes are `nat`).
- SttPocketsphinx.SessionCounts: a negative duration passes the `float` schema (:109-111) and gives the source a negative counter (:221-223); the model reloads zero instead. The callback compares the counters only with zero (:237-238, :254, :263, :267) and changes `min_phrase_buffers` and `silence_buffers` only while positive. A max counter that starts at zero or below times out on every callback either way. So every branch the callback takes is the same; the stored counter values are not.
- WAV parsing, temporary files and the sox subprocess are not modelled. `PrepareAudio` receives the parsed format and the frames sox would output. The filename branch of `decode_wav` passes header-less frames to a second WAV parse (stt_pocketsphinx.py:386-387, 408-409); this is not modelled.
- Calls that overlap: `recorded_event`, `decoded_event` and `decoded_phrase` are shared by every service call of the component (stt_pocketsphinx.py:199-201). A later or concurrent call that clears or sets them (:353, :356, :474, :479) can release or redirect a waiting call; the model treats each call on its own.
- The HTTP view (`ExternalSpeechView`), configuration schemas and logging are not modelled.
- MQTT connect and disconnect (intent_table.py:83-84, 99) are not modelled. Publishes are outbox appends only.
- `cv.ensure_list_csv` splitting of comma-separated strings is not modelled. The lists are given as sequences.
- IntentTable.IntentRouter.Parse: a `text` attribute that is present but not a string (e.g. `None`) is not modelled. Phrases are strings.
- The other repository components (`stt_snowboy`, `stt_speech_recognition`, the espeak scripts and the snowboy helpers) are not part of this model.

## Findings

| source | as written | input that shows it | evidently intended | confidence | as-written member | corrected member |
|---|---|---|---|---|---|---|
| custom_components/stt_pocketsphinx.py:472 | the decode thread logs `'...' + decoded_phrase`, which raises `TypeError` when there is no hypothesis, before `decoded_event.set()`; the service waits until a later decode or a stop sets the shared `decoded_event` (:200, set at :353, :474, :527) and the entity stays in `decoding` until then | a `decode_wav` call on audio for which the decoder has no hypothesis | the phrase is logged without concatenating `None`, and the call returns to `idle` and fires `speech_to_text` without a text | not executed | SttPocketsphinx.AsWrittenStuckWithoutHypothesis | SttPocketsphinx.DecodeWavAnnouncesOnce |
| custom_components/stt_pocketsphinx.py:491 | `"..." + state_attrs` concatenates a string and a dict, which always raises `TypeError` after `idle` is set and before `speech_to_text` is fired | any `decode_wav` call with a hypothesis that is not terminated | `str(state_attrs)` as in the listen service (:369), so `speech_to_text` is fired with the phrase | not executed | SttPocketsphinx.AsWrittenNeverAnnounces | SttPocketsphinx.DecodeWavAnnouncesOnce |

# Speech recognizer core, modelled in Dafny

This project models the core of the bookbot speech recognizer, a Flutter plugin that does on-device speech recognition with sherpa-onnx on Android and iOS.
The plugin listens to the microphone in quanta of 1600 samples: 100 ms on iOS, and about 36 ms on Android, which records at 44.1 kHz.
It hands each quantum to a streaming recognizer and to a voice activity detector (VAD).
A small state machine with two patience counters decides whether to:

- keep decoding;
- count down trailing silence to an endpoint;
- or send an empty result and, after a long silence, reset the engines.

Around that state machine sit:

- the Android lifecycle (`SpeechServiceImpl`);
- the recognizer thread that owns the engines (`BufferedRecognitionService`);
- its queue of deferred engine work;
- the recording tasks that store the microphone audio with its transcripts (`MicrophoneRecorder`);
- a method-channel reply wrapper that lets a reply through only once (`MethodResultWrapper`);
- on iOS, the `SpeechController` with its recognizer caches and input tap, and the `MeasureHelper` latency statistics.

The files are:

| file | module | what it holds |
|---|---|---|
| `common.dfy` | `Common` | option type, `isBlank`, `contains`, `joinToString`, decimal timestamps |
| `pcm.dfy` | `Pcm` | 16-bit little-endian PCM encoding and decoding, `readWavFile` |
| `chunking.dfy` | `Chunking` | the VAD window loop and the 1600-sample chunk loop of `processAudio` |
| `engine.dfy` | `Engine` | the recognizer and detector as scripted, logging objects |
| `endpointing.dfy` | `Endpointing` | the per-quantum endpoint state machine shared by both platforms |
| `buffered_recognition.dfy` | `BufferedRecognition` | `BufferedRecognitionService` and its recognizer thread |
| `speech_service.dfy` | `SpeechService` | `SpeechServiceImpl` |
| `recorder.dfy` | `Recorder` | `RecordingTask`, `EncoderRunnable`, `MicrophoneRecorder` |
| `method_result.dfy` | `MethodResult` | `MethodResultWrapper` |
| `ios_speech.dfy` | `IosSpeech` | the iOS `SpeechController` |
| `measure.dfy` | `Measure` | `MeasureInfo`, `MeasureHelper` |

The engines are not modelled. Their behaviour is a script given when they are created:

- the n-th `acceptWaveform` call makes a scripted list of hypotheses ready to decode;
- the n-th VAD window yields a scripted verdict;
- every call is logged.

So contracts can say which engine calls a state machine makes, in which order, and what it reports for any behaviour of the engines.

Each state-changing class has a function that gives its observable state (`State()`, `Snapshot()`, `WorkerOf()`, `SessionOf()`).
Each method ensures that the new state is a pure step function of the old state.
The properties are lemmas about those step functions.

The file system of the recorder is a map from path to contents.
It is passed into each recorder operation and returned from it.

Where the code and its documented design differ, the model follows the code:

- The replace branch of `recordTranscript` is taken only when the new transcript equals the last one, so it writes back the same value (`Recorder.ReplaceBranchIsIdentity`).
  The transcript list therefore never holds two equal neighbours.
- With the default patience values (6, 6, 6), the endpoint after the last speech quantum comes on the 13th silent quantum, not after 6 (`Endpointing.EndpointAfterSpeech`).
- The silent reset with no speech comes on every 6th silent quantum (`Endpointing.SilentResetPeriod`).
- The Android stream resets recreate the stream.
  The iOS endpoint and silent reset only restart it.
- iOS `setContextBiasing` recreates the stream only for non-empty hotwords.
- iOS speech and idle events leave `isNoSpeech` out; Android sends `false`.
- `startListening` sets the callback on the existing thread even when that thread has already left its loop; the `setPause(false)` that follows then starts a new thread without a callback, so `start` after such a stop leaves a thread that ignores the microphone (`SpeechService.StartRuns`).
- A recognizer that `speechRecognizer()` makes on the spot has not run `initModel`, so its first engine call throws on the uninitialised `lateinit` engines (`Engine.Sherpa`).
  The deferred closures call the service's recognizer whether or not a callback is attached, and the first one that throws does so on the recognition executor, where nothing catches it (`BufferedRecognition.UnloadedQuantumThrows`).
  Android's default handler then ends the process; the model gives the objects' state at the throw, which no later call sees.

## Model

| member | source | states |
|---|---|---|
| Common.IsWhitespace | speech_recognizer/android/app/src/main/kotlin/com/bookbot/audio/MicrophoneRecorder.kt:147 | Kotlin's `isWhitespace`: the controls U+0009 to U+000D and U+001C to U+001F and every Unicode space, line and paragraph separator |
| Common.IsBlank | speech_recognizer/android/app/src/main/kotlin/com/bookbot/audio/MicrophoneRecorder.kt:147 | `isBlank`: every character is whitespace, so the empty string is blank |
| Common.Contains | speech_recognizer/android/app/src/main/kotlin/com/bookbot/audio/MicrophoneRecorder.kt:102 | `contains`: the second string occurs somewhere in the first; `ContainsSuffix` shows every suffix is found |
| Common.Join | speech_recognizer/android/app/src/main/kotlin/com/bookbot/audio/MicrophoneRecorder.kt:65 | joining no parts gives the empty string and joining one part gives that part; `JoinAppend` fixes the separator between longer runs |
| Common.JoinAppend | speech_recognizer/android/app/src/main/kotlin/com/bookbot/audio/MicrophoneRecorder.kt:65 | the join of two non-empty runs of parts is their joins with exactly one separator between them |
| Common.NonBlank | speech_recognizer/android/app/src/main/kotlin/com/bookbot/audio/MicrophoneRecorder.kt:65 | the filter keeps exactly the non-blank parts, each as often as it occurs in the input, and nothing blank |
| Common.NonBlankAppend | speech_recognizer/android/app/src/main/kotlin/com/bookbot/audio/MicrophoneRecorder.kt:65 | filtering a concatenation is the concatenation of the filtered halves, so the kept parts stay in their order |
| Common.JoinNonBlank | speech_recognizer/android/app/src/main/kotlin/com/bookbot/audio/MicrophoneRecorder.kt:96-98 | the joined non-blank transcripts are blank exactly when there are none, so the `ipa` blank test means "no transcript" |
| Common.NatToString | speech_recognizer/android/app/src/main/kotlin/com/bookbot/audio/MicrophoneRecorder.kt:246 | the timestamp in a file name is a non-empty run of decimal digits |
| Common.NatToStringRoundTrip | speech_recognizer/android/app/src/main/kotlin/com/bookbot/audio/MicrophoneRecorder.kt:246 | reading the digits back gives the timestamp |
| Common.NatToStringInjective | speech_recognizer/android/app/src/main/kotlin/com/bookbot/audio/MicrophoneRecorder.kt:245-246 | different timestamps give different file names |
| Pcm.LowByte | speech_recognizer/android/app/src/main/kotlin/com/bookbot/audio/MicrophoneRecorder.kt:123 | the first byte written for a sample is the sample modulo 256 |
| Pcm.HighByte | speech_recognizer/android/app/src/main/kotlin/com/bookbot/audio/MicrophoneRecorder.kt:123 | the second byte written has its top bit set exactly for negative samples |
| Pcm.ToShort | speech_recognizer/android/app/src/main/kotlin/com/bookbot/service/BufferedRecognitionService.kt:703-711 | a little-endian byte pair reads back as the signed sample that is congruent to it modulo 65536, negative exactly when the high byte is at least 128 |
| Pcm.SampleRoundTrip | speech_recognizer/android/app/src/main/kotlin/com/bookbot/audio/MicrophoneRecorder.kt:123 | reading back the two bytes written for a sample gives the sample |
| Pcm.BytesRoundTrip | speech_recognizer/android/app/src/main/kotlin/com/bookbot/service/BufferedRecognitionService.kt:703-711 | writing back a decoded byte pair gives the same two bytes |
| Pcm.PcmBytes | speech_recognizer/android/app/src/main/kotlin/com/bookbot/audio/MicrophoneRecorder.kt:122-124 | a run of samples takes exactly two bytes per sample |
| Pcm.PcmBytesAt | speech_recognizer/android/app/src/main/kotlin/com/bookbot/audio/MicrophoneRecorder.kt:122-124 | byte 2i is the low byte and byte 2i+1 the high byte of sample i |
| Pcm.PcmBytesAppend | speech_recognizer/android/app/src/main/kotlin/com/bookbot/audio/MicrophoneRecorder.kt:118-130 | encoding two buffers one after the other equals encoding their concatenation |
| Pcm.DecodePcm | speech_recognizer/android/app/src/main/kotlin/com/bookbot/service/BufferedRecognitionService.kt:703-711 | a byte run decodes to half as many samples, rounding down |
| Pcm.DecodeEncode | speech_recognizer/android/app/src/main/kotlin/com/bookbot/service/BufferedRecognitionService.kt:703-711 | decoding the recorder's encoding gives back the samples, whatever single odd byte trails |
| Pcm.EncodeDecode | speech_recognizer/android/app/src/main/kotlin/com/bookbot/service/BufferedRecognitionService.kt:703-711 | on an even number of bytes, re-encoding the decoded samples gives back the bytes |
| Pcm.WavSamples | speech_recognizer/android/app/src/main/kotlin/com/bookbot/service/BufferedRecognitionService.kt:683-717 | the file is refused exactly when it is shorter than the 44-byte header |
| Pcm.ReadBackRecording | speech_recognizer/android/app/src/main/kotlin/com/bookbot/service/BufferedRecognitionService.kt:683-717 | a 44-byte header followed by encoded samples reads back as exactly those samples |
| Pcm.ReadWavFile | speech_recognizer/android/app/src/main/kotlin/com/bookbot/service/BufferedRecognitionService.kt:683-717 | the array-filling loop computes the header-skipping decoding, or nothing for a short file |
| Chunking.Zeros | speech_recognizer/android/app/src/main/kotlin/com/bookbot/service/BufferedRecognitionService.kt:279 | the padding has the requested length and holds only zeros |
| Chunking.Windows | speech_recognizer/android/app/src/main/kotlin/com/bookbot/service/BufferedRecognitionService.kt:399-402 | the VAD windows of a quantum: its consecutive slices of `windowSize` samples, as `WindowsPartition` states |
| Chunking.WindowsFromFlatten | speech_recognizer/android/app/src/main/kotlin/com/bookbot/service/BufferedRecognitionService.kt:399-402 | the windows taken from an offset concatenate back to the rest of the buffer |
| Chunking.WindowsFromSizes | speech_recognizer/android/app/src/main/kotlin/com/bookbot/service/BufferedRecognitionService.kt:399-402 | every window but the last is full, the last is non-empty and at most full |
| Chunking.WindowsPartition | speech_recognizer/android/app/src/main/kotlin/com/bookbot/service/BufferedRecognitionService.kt:399-402 | the VAD windows of a quantum partition it: they concatenate back to it, all but the last are full |
| Chunking.ChunksFromShape | speech_recognizer/android/app/src/main/kotlin/com/bookbot/service/BufferedRecognitionService.kt:271-285 | from any offset, the chunks are the windows of the rest, only the last padded, each `readSize` the unpadded length |
| Chunking.PaddedChunks | speech_recognizer/android/app/src/main/kotlin/com/bookbot/service/BufferedRecognitionService.kt:271-285 | the chunks of a recording from offset 0, each with its unpadded `readSize`, as `PaddedChunksShape` states |
| Chunking.PaddedChunksShape | speech_recognizer/android/app/src/main/kotlin/com/bookbot/service/BufferedRecognitionService.kt:268-286 | the chunks of a recording are its 1600-sample windows, the last followed by the padding; an empty recording gives no chunk |
| Engine.AsrAccept | speech_recognizer/android/app/src/main/kotlin/com/k2fsa/sherpa/onnx/SherpaSpeechRecognizer.kt:22-24 | `acceptWaveform` on the recognizer state: logged, and with a stream the next scripted steps become ready |
| Engine.AsrDecode | speech_recognizer/android/app/src/main/kotlin/com/k2fsa/sherpa/onnx/SherpaSpeechRecognizer.kt:44-48 | `decode` on the recognizer state: logged, and a ready step becomes the hypothesis |
| Engine.AsrReset | speech_recognizer/android/app/src/main/kotlin/com/k2fsa/sherpa/onnx/SherpaSpeechRecognizer.kt:26-36 | `reset(hotwords, recreate)` on the recognizer state, as `ResetClearsResult` states |
| Engine.AsrInputFinished | speech_recognizer/android/app/src/main/kotlin/com/k2fsa/sherpa/onnx/SherpaSpeechRecognizer.kt:38-40 | `inputFinished` on the recognizer state: only logged |
| Engine.VadAcceptWindow | speech_recognizer/android/app/src/main/kotlin/com/k2fsa/sherpa/onnx/SherpaSpeechRecognizer.kt:59-61 | `vadAcceptWaveForm` of one window on the detector state: logged, the next scripted verdict and segments taken |
| Engine.VadFeed | speech_recognizer/android/app/src/main/kotlin/com/bookbot/service/BufferedRecognitionService.kt:399-402 | the detector state after the windows of a quantum, in order, as `VadFeedLog` states |
| Engine.VadPop | speech_recognizer/android/app/src/main/kotlin/com/k2fsa/sherpa/onnx/SherpaSpeechRecognizer.kt:71-73 | `vadPop` on the detector state: one segment fewer, logged |
| Engine.VadResetState | speech_recognizer/android/app/src/main/kotlin/com/k2fsa/sherpa/onnx/SherpaSpeechRecognizer.kt:55-57 | `vadReset` on the detector state: no speech and no segment, logged |
| Engine.Decodes | speech_recognizer/android/app/src/main/kotlin/com/k2fsa/sherpa/onnx/SherpaSpeechRecognizer.kt:44-48 | n decode calls are n entries of the log, all `Decode` |
| Engine.AsrDecodeAll | speech_recognizer/android/app/src/main/kotlin/com/k2fsa/sherpa/onnx/SherpaSpeechRecognizer.kt:42-48 | after decoding while ready nothing is ready, and the stream, hotwords and script are unchanged |
| Engine.DecodeStepPreservesDecodeAll | speech_recognizer/android/app/src/main/kotlin/com/k2fsa/sherpa/onnx/SherpaSpeechRecognizer.kt:42-48 | one decode step does not change where the decode-while-ready loop ends |
| Engine.ResetClearsResult | speech_recognizer/android/app/src/main/kotlin/com/k2fsa/sherpa/onnx/SherpaSpeechRecognizer.kt:26-36 | after a reset there is a stream, nothing to decode and an empty result; a recreated stream carries the new hotwords, a restarted one keeps the old |
| Engine.Pops | speech_recognizer/android/app/src/main/kotlin/com/k2fsa/sherpa/onnx/SherpaSpeechRecognizer.kt:71-73 | n pops are n `Pop` entries of the log |
| Engine.VadPopAll | speech_recognizer/android/app/src/main/kotlin/com/k2fsa/sherpa/onnx/SherpaSpeechRecognizer.kt:67-73 | popping until empty leaves no segment and keeps the verdict and the script |
| Engine.VadFeedLog | speech_recognizer/android/app/src/main/kotlin/com/k2fsa/sherpa/onnx/SherpaSpeechRecognizer.kt:59-61 | feeding windows appends exactly those windows to the detector's log, in order, and never loses a segment |
| Engine.PopPreservesPopAll | speech_recognizer/android/app/src/main/kotlin/com/k2fsa/sherpa/onnx/SherpaSpeechRecognizer.kt:67-73 | one pop does not change where the pop-until-empty loop ends |
| Engine.Asr.constructor | speech_recognizer/android/app/src/main/kotlin/com/k2fsa/sherpa/onnx/SherpaSpeechRecognizer.kt:6-14 | a new recognizer has the given stream flag and script, nothing pending, an empty hypothesis and an empty log |
| Engine.Asr.AcceptWaveform | speech_recognizer/android/app/src/main/kotlin/com/k2fsa/sherpa/onnx/SherpaSpeechRecognizer.kt:22-24 | the call is logged; with a stream the next scripted steps become ready, without one nothing else happens |
| Engine.Asr.Decode | speech_recognizer/android/app/src/main/kotlin/com/k2fsa/sherpa/onnx/SherpaSpeechRecognizer.kt:44-48 | the call is logged; a ready step becomes the hypothesis |
| Engine.Asr.Reset | speech_recognizer/android/app/src/main/kotlin/com/k2fsa/sherpa/onnx/SherpaSpeechRecognizer.kt:26-36 | the call is logged; a new stream with the hotwords when asked to recreate or when there is none, otherwise the stream restarted, in both cases with nothing pending |
| Engine.Asr.InputFinished | speech_recognizer/android/app/src/main/kotlin/com/k2fsa/sherpa/onnx/SherpaSpeechRecognizer.kt:38-40 | the call is logged and nothing else changes |
| Engine.Vad.constructor | speech_recognizer/android/app/src/main/kotlin/com/k2fsa/sherpa/onnx/SherpaSpeechRecognizer.kt:11-14 | a new detector hears no speech, holds no segment and has an empty log |
| Engine.Vad.AcceptWaveform | speech_recognizer/android/app/src/main/kotlin/com/k2fsa/sherpa/onnx/SherpaSpeechRecognizer.kt:59-61 | the window is logged, the next scripted verdict taken (silence once the script is used up) and its segments queued |
| Engine.Vad.Pop | speech_recognizer/android/app/src/main/kotlin/com/k2fsa/sherpa/onnx/SherpaSpeechRecognizer.kt:71-73 | one segment fewer, never below zero, and the call logged |
| Engine.Vad.Reset | speech_recognizer/android/app/src/main/kotlin/com/k2fsa/sherpa/onnx/SherpaSpeechRecognizer.kt:55-57 | no speech, no segment, the call logged |
| Engine.DecodeWhileReady | speech_recognizer/android/app/src/main/kotlin/com/bookbot/service/BufferedRecognitionService.kt:424-426 | the `while (isReady()) decode()` loop ends in the state `AsrDecodeAll` gives |
| Engine.PopUntilEmpty | speech_recognizer/android/app/src/main/kotlin/com/bookbot/service/BufferedRecognitionService.kt:498-500 | the `while (!vadEmpty()) vadPop()` loop ends in the state `VadPopAll` gives |
| Engine.FeedWindows | speech_recognizer/android/app/src/main/kotlin/com/bookbot/service/BufferedRecognitionService.kt:399-402 | the window loop feeds the detector exactly the windows of the quantum, in order |
| Engine.Sherpa.constructor | speech_recognizer/android/app/src/main/kotlin/com/k2fsa/sherpa/onnx/SherpaSpeechRecognizer.kt:6-14 | the adapter owns a fresh recognizer without a stream and a fresh detector, and is not loaded |
| Engine.Sherpa.InitModel | speech_recognizer/android/app/src/main/kotlin/com/k2fsa/sherpa/onnx/SherpaSpeechRecognizer.kt:11-14 | after `initModel` the adapter is loaded |
| Endpointing.Classify | speech_recognizer/android/app/src/main/kotlin/com/bookbot/service/BufferedRecognitionService.kt:406-539 | the branch a quantum takes from its verdict and the counters: speaking, trailing, endpoint, idle or silent reset, as `EndpointAfterSpeech` and `SilentResetPeriod` state |
| Endpointing.Next | speech_recognizer/android/app/src/main/kotlin/com/bookbot/service/BufferedRecognitionService.kt:406-539 | the counters after one quantum, their ranges kept as `NextValid` states |
| Endpointing.TailLength | speech_recognizer/android/app/src/main/kotlin/com/bookbot/service/BufferedRecognitionService.kt:462 | the tail padding is `speechSampleRate * 0.16` samples, truncated |
| Endpointing.Dedup | speech_recognizer/android/app/src/main/kotlin/com/bookbot/service/BufferedRecognitionService.kt:441-451 | an event is sent only when the result differs from the last one read |
| Endpointing.Decoded | speech_recognizer/android/app/src/main/kotlin/com/bookbot/service/BufferedRecognitionService.kt:415-503 | the recognizer after a branch's decoding: the tail padding first at an endpoint in phoneme mode, as `DecodedExtendsLog` states |
| Endpointing.Respond | speech_recognizer/android/app/src/main/kotlin/com/bookbot/service/BufferedRecognitionService.kt:406-539 | one quantum after both engines took it: counters, events, transcripts and engine calls per branch, as `QuantumEvents` states |
| Endpointing.Quantum | speech_recognizer/android/app/src/main/kotlin/com/bookbot/service/BufferedRecognitionService.kt:390-545 | one quantum: an empty one changes nothing, any other is accepted, fed to the detector window by window, then answered, as `QuantumCounters` and `QuantumAcceptsFirst` state |
| Endpointing.WithoutVad | speech_recognizer/android/app/src/main/kotlin/com/bookbot/service/BufferedRecognitionService.kt:310-337 | a buffer without VAD: accepted, decoded, recorded and reported once per new result, as `WithoutVadDedup` states |
| Endpointing.InitialValid | speech_recognizer/android/app/src/main/kotlin/com/bookbot/service/BufferedRecognitionService.kt:48-49 | the start values 0 and -1 are in range |
| Endpointing.NextValid | speech_recognizer/android/app/src/main/kotlin/com/bookbot/service/BufferedRecognitionService.kt:406-539 | one quantum keeps patience in [0, VAD_PATIENCE] and the reset count in [-rule1, rule2], and patience is only left while the reset count is full |
| Endpointing.RunValid | speech_recognizer/android/app/src/main/kotlin/com/bookbot/service/BufferedRecognitionService.kt:406-539 | any run of quanta keeps the counters in that range |
| Endpointing.Silence | speech_recognizer/android/app/src/main/kotlin/com/bookbot/service/BufferedRecognitionService.kt:406-539 | a silent run of n quanta has n verdicts, all silent |
| Endpointing.SilenceSplit | speech_recognizer/android/app/src/main/kotlin/com/bookbot/service/BufferedRecognitionService.kt:406-539 | a silent run of a + b quanta is a silent run of a followed by one of b |
| Endpointing.AfterSpeechRun | speech_recognizer/android/app/src/main/kotlin/com/bookbot/service/BufferedRecognitionService.kt:406-504 | m silent quanta after speech first run patience down, then the trailing count, whatever the counters were before |
| Endpointing.EndpointDisarms | speech_recognizer/android/app/src/main/kotlin/com/bookbot/service/BufferedRecognitionService.kt:465-503 | an endpoint leaves the reset count at -1 |
| Endpointing.NoEndpointWithoutSpeech | speech_recognizer/android/app/src/main/kotlin/com/bookbot/service/BufferedRecognitionService.kt:505-539 | once the reset count is negative, silent quanta never reach the trailing or endpoint branch again |
| Endpointing.EndpointAfterSpeech | speech_recognizer/android/app/src/main/kotlin/com/bookbot/service/BufferedRecognitionService.kt:406-504 | the k-th silent quantum after speech is an endpoint if and only if k = VAD_PATIENCE + rule2 + 1; before it the quanta decode, then trail; after it they are idle or silent resets |
| Endpointing.IdleStep | speech_recognizer/android/app/src/main/kotlin/com/bookbot/service/BufferedRecognitionService.kt:505-539 | one idle quantum lowers the count by one, or puts it back to -1 when it reaches -rule1 |
| Endpointing.IdleCycle | speech_recognizer/android/app/src/main/kotlin/com/bookbot/service/BufferedRecognitionService.kt:505-539 | after q cycles of rule1 silent quanta and i more, from start-up, the count is -1 - i |
| Endpointing.SilentResetPeriod | speech_recognizer/android/app/src/main/kotlin/com/bookbot/service/BufferedRecognitionService.kt:520-534 | with no speech since start-up, a silent quantum is a silent reset if and only if it is the last of a cycle of rule1 quanta, and idle otherwise |
| Endpointing.QuantumCounters | speech_recognizer/android/app/src/main/kotlin/com/bookbot/service/BufferedRecognitionService.kt:393-539 | an empty quantum changes nothing; any other moves the counters by the detector's last verdict on its windows |
| Endpointing.QuantumEvents | speech_recognizer/android/app/src/main/kotlin/com/bookbot/service/BufferedRecognitionService.kt:415-539 | the events of one quantum per branch: at most one (deduplicated) when speaking, none when trailing, one final event when endpointing, one empty event when idle or resetting; earlier events are kept |
| Endpointing.EndpointEngineCalls | speech_recognizer/android/app/src/main/kotlin/com/bookbot/service/BufferedRecognitionService.kt:465-503 | at an endpoint the recognizer is fed the quantum, then the tail padding in phoneme mode only, then drained and reset; the detector ends empty and the result is cleared |
| Endpointing.QuantumAcceptsFirst | speech_recognizer/android/app/src/main/kotlin/com/bookbot/service/BufferedRecognitionService.kt:393 | every branch asks the recognizer for nothing before it has been handed the quantum |
| Endpointing.RespondExtendsLog | speech_recognizer/android/app/src/main/kotlin/com/bookbot/service/BufferedRecognitionService.kt:406-539 | the branches only ever add to the recognizer's log |
| Endpointing.DecodedExtendsLog | speech_recognizer/android/app/src/main/kotlin/com/bookbot/service/BufferedRecognitionService.kt:415-503 | the decoding done by a branch only adds to the recognizer's log |
| Endpointing.WithoutVadDedup | speech_recognizer/android/app/src/main/kotlin/com/bookbot/service/BufferedRecognitionService.kt:294-339 | without VAD the counters and the detector are untouched, and a result is sent exactly when it differs from the last one |
| BufferedRecognition.CallbackAsr | speech_recognizer/android/app/src/main/kotlin/com/bookbot/service/SpeechServiceImpl.kt:190-209 | what each deferred closure asks of the recognizer: a recreating reset, one with the hot words, or a plain reset then `inputFinished` |
| BufferedRecognition.CallbacksAsrLog | speech_recognizer/android/app/src/main/kotlin/com/bookbot/service/BufferedRecognitionService.kt:366-369 | the recognizer receives the queued callbacks' calls in FIFO order, after what it had before |
| BufferedRecognition.StopWorker | speech_recognizer/android/app/src/main/kotlin/com/bookbot/service/BufferedRecognitionService.kt:87-106 | `stop()`: without a thread nothing; otherwise paused, not running, no callback, an empty queue and no thread |
| BufferedRecognition.StartThread | speech_recognizer/android/app/src/main/kotlin/com/bookbot/service/BufferedRecognitionService.kt:129-135 | `initRecognizerThread()`: a new thread that runs unpaused, without a callback and with an empty last result |
| BufferedRecognition.ListenWorker | speech_recognizer/android/app/src/main/kotlin/com/bookbot/service/BufferedRecognitionService.kt:76-81 | `startListening(callback)`: afterwards there is a thread and its callback is the one passed; an existing thread is kept |
| BufferedRecognition.SetPauseWorker | speech_recognizer/android/app/src/main/kotlin/com/bookbot/service/BufferedRecognitionService.kt:121-127 | `setPause(p)`: the flag on the thread, and a new thread on resume when none runs |
| BufferedRecognition.InvokeWorker | speech_recognizer/android/app/src/main/kotlin/com/bookbot/service/SpeechServiceImpl.kt:200-209 | running a callback never lengthens the queue |
| BufferedRecognition.Drained | speech_recognizer/android/app/src/main/kotlin/com/bookbot/service/BufferedRecognitionService.kt:366-369 | the poll loop ends with an empty queue |
| BufferedRecognition.DrainRunsAll | speech_recognizer/android/app/src/main/kotlin/com/bookbot/service/BufferedRecognitionService.kt:366-369 | with a running thread every queued callback runs, in FIFO order, and the pause flag ends cleared exactly when a stop-search cleanup was among them |
| BufferedRecognition.Ran | speech_recognizer/android/app/src/main/kotlin/com/bookbot/service/BufferedRecognitionService.kt:366-369 | the callbacks the poll loop runs, in order; `DrainRunsAll` shows they are the whole queue on a running thread |
| BufferedRecognition.Aborted | speech_recognizer/android/app/src/main/kotlin/com/bookbot/service/SpeechServiceImpl.kt:190-209 | on an unloaded adapter the first closure throws: only it leaves the queue, the last result and the callback are kept |
| BufferedRecognition.PollStep | speech_recognizer/android/app/src/main/kotlin/com/bookbot/service/BufferedRecognitionService.kt:366-369 | one poll runs the head of the queue and leaves the rest to the loop |
| BufferedRecognition.AndroidRecognize | speech_recognizer/android/app/src/main/kotlin/com/bookbot/service/BufferedRecognitionService.kt:362-545 | one `recognize` call as a function of the thread, the session and whether the adapter is loaded, as the lemmas below state |
| BufferedRecognition.AndroidWithoutVad | speech_recognizer/android/app/src/main/kotlin/com/bookbot/service/BufferedRecognitionService.kt:294-339 | one `recognizeWithoutVAD` call, as `WithoutVadDedup` states for its decoding |
| BufferedRecognition.AndroidChunks | speech_recognizer/android/app/src/main/kotlin/com/bookbot/service/BufferedRecognitionService.kt:271-285 | the chunks of a recording fed one after the other, stopping at the first that throws |
| BufferedRecognition.PausedQuantumIsSkipped | speech_recognizer/android/app/src/main/kotlin/com/bookbot/service/BufferedRecognitionService.kt:371-380 | a paused quantum, or one without a callback, runs the callbacks and changes no counter, event or transcript |
| BufferedRecognition.DetachedQuantumRunsCallbacks | speech_recognizer/android/app/src/main/kotlin/com/bookbot/service/BufferedRecognitionService.kt:362-380 | with no callback set, the queued closures still reset the service's recognizer and detector, in order, and nothing is reported |
| BufferedRecognition.UnloadedQuantumThrows | speech_recognizer/android/app/src/main/kotlin/com/k2fsa/sherpa/onnx/SherpaSpeechRecognizer.kt:7-30 | on an unloaded adapter a quantum with pending closures throws at the first; at the throw the session is untouched, the rest of the queue is still there, and a stop-search cleanup has paused the thread |
| BufferedRecognition.CallbacksBeforeQuantum | speech_recognizer/android/app/src/main/kotlin/com/bookbot/service/BufferedRecognitionService.kt:362-393 | with a callback set, the recognizer gets the queued callbacks' calls first, then the quantum |
| BufferedRecognition.RunOnEngines | speech_recognizer/android/app/src/main/kotlin/com/bookbot/service/SpeechServiceImpl.kt:190-209 | each deferred closure resets the recognizer as it asks and then resets the detector |
| BufferedRecognition.RecognitionService.constructor | speech_recognizer/android/app/src/main/kotlin/com/bookbot/service/BufferedRecognitionService.kt:725-735 | a new service starts a running, unpaused thread with an empty queue and the counters at their start values |
| BufferedRecognition.RecognitionService.Stop | speech_recognizer/android/app/src/main/kotlin/com/bookbot/service/BufferedRecognitionService.kt:88-107 | false without a thread; otherwise the thread is paused, stopped and dropped and the queue discarded |
| BufferedRecognition.RecognitionService.InitRecognizerThread | speech_recognizer/android/app/src/main/kotlin/com/bookbot/service/BufferedRecognitionService.kt:129-135 | any old thread is stopped and a new running, unpaused one starts with an empty last result |
| BufferedRecognition.RecognitionService.StartListening | speech_recognizer/android/app/src/main/kotlin/com/bookbot/service/BufferedRecognitionService.kt:76-81 | a thread is started when there is none, and the callback passed, or none, is set on it |
| BufferedRecognition.RecognitionService.RunOnBuffer | speech_recognizer/android/app/src/main/kotlin/com/bookbot/service/BufferedRecognitionService.kt:84-86 | the callback is queued last and nothing else changes |
| BufferedRecognition.RecognitionService.Shutdown | speech_recognizer/android/app/src/main/kotlin/com/bookbot/service/BufferedRecognitionService.kt:116-119 | the thread is stopped |
| BufferedRecognition.RecognitionService.SetPause | speech_recognizer/android/app/src/main/kotlin/com/bookbot/service/BufferedRecognitionService.kt:121-127 | the thread's pause flag is set, and resuming without a running thread starts one |
| BufferedRecognition.RecognitionService.RunFinished | speech_recognizer/android/app/src/main/kotlin/com/bookbot/service/BufferedRecognitionService.kt:251-259 | leaving the microphone loop marks the thread not running and changes nothing else |
| BufferedRecognition.RecognitionService.DrainCallbacks | speech_recognizer/android/app/src/main/kotlin/com/bookbot/service/BufferedRecognitionService.kt:366-369 | on a loaded adapter the poll loop ends in the drained state and the service's recognizer and detector have received the callbacks that ran, in order; on an unloaded one the first closure throws and the engines are untouched |
| BufferedRecognition.RecognitionService.PollOne | speech_recognizer/android/app/src/main/kotlin/com/bookbot/service/BufferedRecognitionService.kt:367-368 | one poll removes the head of the queue and runs it on the service's adapter and on the thread, or throws on an unloaded adapter |
| BufferedRecognition.RecognitionService.InvokeOnService | speech_recognizer/android/app/src/main/kotlin/com/bookbot/service/SpeechServiceImpl.kt:200-209 | the stop-search cleanup pauses and then resumes the thread; other callbacks leave the service alone |
| BufferedRecognition.RecognitionService.Recognize | speech_recognizer/android/app/src/main/kotlin/com/bookbot/service/BufferedRecognitionService.kt:362-545 | a quantum drains the callbacks, is skipped while paused or without a callback, and otherwise runs one step of the endpoint state machine, or throws on an unloaded adapter |
| BufferedRecognition.RecognitionService.Step | speech_recognizer/android/app/src/main/kotlin/com/bookbot/service/BufferedRecognitionService.kt:376-539 | an unpaused quantum is exactly one step of the shared state machine for Android |
| BufferedRecognition.RecognitionService.React | speech_recognizer/android/app/src/main/kotlin/com/bookbot/service/BufferedRecognitionService.kt:404-539 | the branch code does what the shared branch function says, given the fed engines |
| BufferedRecognition.RecognitionService.DecodeAndReport | speech_recognizer/android/app/src/main/kotlin/com/bookbot/service/BufferedRecognitionService.kt:415-451 | the speaking branch drains the recognizer, records the result and sends it unless it repeats the last one |
| BufferedRecognition.RecognitionService.ReportEndpoint | speech_recognizer/android/app/src/main/kotlin/com/bookbot/service/BufferedRecognitionService.kt:462-503 | the endpoint pads in phoneme mode, drains the recognizer, always sends one final event, then empties the detector and recreates the stream |
| BufferedRecognition.RecognitionService.FlushEngines | speech_recognizer/android/app/src/main/kotlin/com/bookbot/service/BufferedRecognitionService.kt:520-534 | the silent reset drains the recognizer, empties the detector and recreates the stream |
| BufferedRecognition.RecognitionService.RecognizeWithoutVad | speech_recognizer/android/app/src/main/kotlin/com/bookbot/service/BufferedRecognitionService.kt:294-339 | the callbacks run, then, with a callback set, a non-empty buffer is decoded and reported without endpointing |
| BufferedRecognition.RecognitionService.ProcessAudio | speech_recognizer/android/app/src/main/kotlin/com/bookbot/service/BufferedRecognitionService.kt:262-289 | the service's `recognizerThread?.processAudio` (lines 109-111) does nothing without a thread; otherwise, with a callback set the recognizer is reset first (an unloaded adapter throws), data that `readWavFile` rejects ends the call, and otherwise the 1600-sample chunks, the last padded with `speechSampleRate` zeros, go through `recognizeWithoutVAD` until one throws |
| SpeechService.StartStep | speech_recognizer/android/app/src/main/kotlin/com/bookbot/service/SpeechServiceImpl.kt:79-91 | `start`: refused unless ready; otherwise listen, unpause, report running and clear `stopped`, as `StartRuns` states |
| SpeechService.StopStep | speech_recognizer/android/app/src/main/kotlin/com/bookbot/service/SpeechServiceImpl.kt:151-161 | `stop(shouldPause)`: when ready, `stopped` set and the thread paused or stopped |
| SpeechService.PauseStep | speech_recognizer/android/app/src/main/kotlin/com/bookbot/service/SpeechServiceImpl.kt:139-149 | `pause()` and `resume()`: forwarded to the thread only when ready, as `PauseResume` states |
| SpeechService.DestroyStep | speech_recognizer/android/app/src/main/kotlin/com/bookbot/service/SpeechServiceImpl.kt:167-176 | `destroy()`: when ready, stop, shut down and no longer ready, as `DestroyEnds` states |
| SpeechService.RestartStep | speech_recognizer/android/app/src/main/kotlin/com/bookbot/service/SpeechServiceImpl.kt:178-188 | `restart`: unless not ready or stopped, not running with one delayed start, as `RestartAfterStopIsNoOp` states |
| SpeechService.DeferStep | speech_recognizer/android/app/src/main/kotlin/com/bookbot/service/BufferedRecognitionService.kt:83-85 | `runOnBuffer`: the closure joins the end of the queue |
| SpeechService.StopSearchStep | speech_recognizer/android/app/src/main/kotlin/com/bookbot/service/SpeechServiceImpl.kt:200-209 | `stopSearch()`: phoneme mode at once and the cleanup queued, as `StopSearchRunsAtNextQuantum` states |
| SpeechService.OnThread | speech_recognizer/android/app/src/main/kotlin/com/bookbot/service/SpeechServiceImpl.kt:79-209 | a call on the buffered service does nothing without one and never creates or removes it |
| SpeechService.ErrorStep | speech_recognizer/android/app/src/main/kotlin/com/bookbot/service/SpeechServiceImpl.kt:262-270 | after an error the service is not running |
| SpeechService.StartRuns | speech_recognizer/android/app/src/main/kotlin/com/bookbot/service/SpeechServiceImpl.kt:79-91 | `start` succeeds exactly when ready, and then leaves a running, unpaused thread, reports running and clears `stopped`; the thread has the service as its callback unless the old thread had left its loop |
| SpeechService.RestartAfterStopIsNoOp | speech_recognizer/android/app/src/main/kotlin/com/bookbot/service/SpeechServiceImpl.kt:178-188 | after `stop`, `restart` posts no delayed start and changes nothing |
| SpeechService.DestroyEnds | speech_recognizer/android/app/src/main/kotlin/com/bookbot/service/SpeechServiceImpl.kt:167-176 | after `destroy` there is no thread, the service is stopped and not ready, and `start` is refused |
| SpeechService.PauseResume | speech_recognizer/android/app/src/main/kotlin/com/bookbot/service/SpeechServiceImpl.kt:139-149 | pausing then resuming a running thread only clears its pause flag |
| SpeechService.StopSearchRunsAtNextQuantum | speech_recognizer/android/app/src/main/kotlin/com/bookbot/service/SpeechServiceImpl.kt:200-209 | `stopSearch` ends word mode at once; at the next quantum the queued work and then the cleanup run, and the thread ends unpaused |
| SpeechService.MaxAbs | speech_recognizer/android/app/src/main/kotlin/com/bookbot/service/SpeechServiceImpl.kt:233-239 | the peak magnitude of the samples, as `MaxAbsIsMax` states |
| SpeechService.MaxAbsIsMax | speech_recognizer/android/app/src/main/kotlin/com/bookbot/service/SpeechServiceImpl.kt:233-239 | the peak bounds every sample's magnitude, is one of them (0 for none) and is at most 32768 |
| SpeechService.VolumeLevel | speech_recognizer/android/app/src/main/kotlin/com/bookbot/service/SpeechServiceImpl.kt:241-246 | the level is always within [0, 100] |
| SpeechService.VolumeLevelShape | speech_recognizer/android/app/src/main/kotlin/com/bookbot/service/SpeechServiceImpl.kt:241-246 | the level grows with the peak, is 100 exactly from full scale and 0 exactly for silence |
| SpeechService.Peak | speech_recognizer/android/app/src/main/kotlin/com/bookbot/service/SpeechServiceImpl.kt:233-239 | the loop finds the largest magnitude among the first `readSize` samples, 0 for a non-positive size, and fails when the size runs past the buffer |
| SpeechService.OnDataLevel | speech_recognizer/android/app/src/main/kotlin/com/bookbot/service/SpeechServiceImpl.kt:230-246 | the unsmoothed level is the volume level of that peak, and fails exactly where the peak does |
| SpeechService.SpeechServiceImpl.constructor | speech_recognizer/android/app/src/main/kotlin/com/bookbot/service/SpeechServiceImpl.kt:31-67 | a new service is not ready, not running, stopped, in phoneme mode, with no buffered service and no recognizer |
| SpeechService.SpeechServiceImpl.SpeechRecognizer | speech_recognizer/android/app/src/main/kotlin/com/bookbot/service/SpeechServiceImpl.kt:45-51 | the recognizer of the current mode is the cached one, or a new, unloaded one made on the first call in that mode; the other mode's is untouched |
| SpeechService.SpeechServiceImpl.InitSpeech | speech_recognizer/android/app/src/main/kotlin/com/bookbot/service/SpeechServiceImpl.kt:73-77 | afterwards the service is ready, with a new buffered service whose thread runs unpaused, without a callback and with an empty queue, and the current mode's recognizer exists and is loaded |
| SpeechService.SpeechServiceImpl.Start | speech_recognizer/android/app/src/main/kotlin/com/bookbot/service/SpeechServiceImpl.kt:79-91 | `start` follows `StartStep`: refused unless ready, otherwise listening, unpaused, running and reported |
| SpeechService.SpeechServiceImpl.Stop | speech_recognizer/android/app/src/main/kotlin/com/bookbot/service/SpeechServiceImpl.kt:151-161 | when ready the service is marked stopped and the thread paused or stopped, as asked |
| SpeechService.SpeechServiceImpl.Pause | speech_recognizer/android/app/src/main/kotlin/com/bookbot/service/SpeechServiceImpl.kt:139-143 | when ready the thread is paused |
| SpeechService.SpeechServiceImpl.Resume | speech_recognizer/android/app/src/main/kotlin/com/bookbot/service/SpeechServiceImpl.kt:145-149 | when ready the thread is resumed, and restarted if it was not running |
| SpeechService.SpeechServiceImpl.DestroyRecognizer | speech_recognizer/android/app/src/main/kotlin/com/bookbot/service/SpeechServiceImpl.kt:163-165 | afterwards there is a thread and it has no callback; a thread is started when there is none |
| SpeechService.SpeechServiceImpl.Destroy | speech_recognizer/android/app/src/main/kotlin/com/bookbot/service/SpeechServiceImpl.kt:167-176 | when ready: stopped, the thread shut down, and no longer ready |
| SpeechService.SpeechServiceImpl.Restart | speech_recognizer/android/app/src/main/kotlin/com/bookbot/service/SpeechServiceImpl.kt:178-188 | unless not ready or stopped, the service is marked not running and one delayed start is posted |
| SpeechService.SpeechServiceImpl.RunDelayedStart | speech_recognizer/android/app/src/main/kotlin/com/bookbot/service/SpeechServiceImpl.kt:184-186 | a posted start runs as `start` does, one pending start fewer |
| SpeechService.SpeechServiceImpl.Reset | speech_recognizer/android/app/src/main/kotlin/com/bookbot/service/SpeechServiceImpl.kt:190-198 | a recreating engine reset is queued for the recognizer thread |
| SpeechService.SpeechServiceImpl.StopSearch | speech_recognizer/android/app/src/main/kotlin/com/bookbot/service/SpeechServiceImpl.kt:200-209 | word mode ends at once and the engine cleanup is queued |
| SpeechService.SpeechServiceImpl.SetContextBiasing | speech_recognizer/android/app/src/main/kotlin/com/bookbot/service/SpeechServiceImpl.kt:93-106 | no hot words: nothing; with a buffered service the reset with the hot words is queued; without one the current recognizer (made if needed) is reset with them and its detector reset when it is loaded, and otherwise the call throws, as it always does for a recognizer made on the spot |
| SpeechService.SpeechServiceImpl.OnResult | speech_recognizer/android/app/src/main/kotlin/com/bookbot/service/SpeechServiceImpl.kt:254-260 | a non-null result is posted with its four flags; a null one is dropped |
| SpeechService.SpeechServiceImpl.OnError | speech_recognizer/android/app/src/main/kotlin/com/bookbot/service/SpeechServiceImpl.kt:262-270 | a non-null error is posted, and the service stops running in any case |
| Recorder.PathsDistinct | speech_recognizer/android/app/src/main/kotlin/com/bookbot/audio/MicrophoneRecorder.kt:39-46 | a task's raw, sidecar and target files have three different names, and no raw file is another task's sidecar or target |
| Recorder.Opened | speech_recognizer/android/app/src/main/kotlin/com/bookbot/audio/MicrophoneRecorder.kt:30-32 | opening for append creates an empty file when missing, keeps an existing one, and touches no other file |
| Recorder.EncoderRunnable.Run | speech_recognizer/android/app/src/main/kotlin/com/bookbot/audio/MicrophoneRecorder.kt:11-19 | nothing without an input; otherwise the output holds the input's encoding and the input is deleted; no other file changes |
| Recorder.TranscriptJsonOf | speech_recognizer/android/app/src/main/kotlin/com/bookbot/audio/MicrophoneRecorder.kt:61-69 | the sidecar's text is the prompt, and its `ipa` is blank exactly when no transcript is non-blank |
| Recorder.Recorded | speech_recognizer/android/app/src/main/kotlin/com/bookbot/audio/MicrophoneRecorder.kt:146-159 | a blank transcript is ignored, anything else ends the list, the list only grows by that one entry, and no two neighbours become equal |
| Recorder.RecordedIdempotent | speech_recognizer/android/app/src/main/kotlin/com/bookbot/audio/MicrophoneRecorder.kt:146-159 | recording the same transcript twice in a row is the same as once |
| Recorder.Keeps | speech_recognizer/android/app/src/main/kotlin/com/bookbot/audio/MicrophoneRecorder.kt:98-102 | a recording is kept when it has a non-blank transcript and its path contains "prompt" or its raw file is over 7000 bytes |
| Recorder.ExportStep | speech_recognizer/android/app/src/main/kotlin/com/bookbot/audio/MicrophoneRecorder.kt:85-116 | nothing with a target or without a raw file; otherwise the stream is closed, the raw file goes, and a sidecar and target appear exactly when there is a transcript and the file is a prompt or over 7000 bytes; only the task's three files change |
| Recorder.ExportIdempotent | speech_recognizer/android/app/src/main/kotlin/com/bookbot/audio/MicrophoneRecorder.kt:85-116 | a second `export` changes nothing |
| Recorder.ExportFinalizes | speech_recognizer/android/app/src/main/kotlin/com/bookbot/audio/MicrophoneRecorder.kt:85-116 | after `export` the raw file is gone or the target exists, and a target is never removed |
| Recorder.CleanUpStep | speech_recognizer/android/app/src/main/kotlin/com/bookbot/audio/MicrophoneRecorder.kt:48-59 | the stream is closed, the raw file is gone, and no other file changes |
| Recorder.FlushStep | speech_recognizer/android/app/src/main/kotlin/com/bookbot/audio/MicrophoneRecorder.kt:230-238 | a task is kept exactly when it is not complete; its raw file is gone afterwards; only its sidecar or target can appear |
| Recorder.ExportAll | speech_recognizer/android/app/src/main/kotlin/com/bookbot/audio/MicrophoneRecorder.kt:207-214 | exporting every task gives one new state per task |
| Recorder.ExportAllSnoc | speech_recognizer/android/app/src/main/kotlin/com/bookbot/audio/MicrophoneRecorder.kt:209-212 | exporting one more task extends the export of the earlier ones by one step |
| Recorder.FlushAll | speech_recognizer/android/app/src/main/kotlin/com/bookbot/audio/MicrophoneRecorder.kt:229-238 | the sweep gives one flag and one new state per task |
| Recorder.Select | speech_recognizer/android/app/src/main/kotlin/com/bookbot/audio/MicrophoneRecorder.kt:233 | selecting the kept entries never adds one |
| Recorder.SelectIn | speech_recognizer/android/app/src/main/kotlin/com/bookbot/audio/MicrophoneRecorder.kt:233 | every kept entry was an entry of the table |
| Recorder.ExportAllFinalizes | speech_recognizer/android/app/src/main/kotlin/com/bookbot/audio/MicrophoneRecorder.kt:207-224 | after `stop` or `release` every task is finalised, whatever the order of the tasks and even when their paths clash |
| Recorder.FlushAllRemovesRaw | speech_recognizer/android/app/src/main/kotlin/com/bookbot/audio/MicrophoneRecorder.kt:229-238 | after the sweep no task has a raw file left |
| Recorder.MicWrite | speech_recognizer/android/app/src/main/kotlin/com/bookbot/audio/MicrophoneRecorder.kt:118-130 | `recordMic` on the file map: an open task's raw file grows by the buffer's PCM bytes, as `MicWriteConcat` and `MicWriteReadBack` state |
| Recorder.MicWriteConcat | speech_recognizer/android/app/src/main/kotlin/com/bookbot/audio/MicrophoneRecorder.kt:118-130 | two buffers recorded one after the other leave the same file as their concatenation recorded at once |
| Recorder.MicWriteReadBack | speech_recognizer/android/app/src/main/kotlin/com/bookbot/audio/MicrophoneRecorder.kt:118-130 | a recording into a fresh raw file decodes back to the samples recorded |
| Recorder.RecordingTask.constructor | speech_recognizer/android/app/src/main/kotlin/com/bookbot/audio/MicrophoneRecorder.kt:22-37 | a new task has its path and prompt, an open raw stream and no transcript |
| Recorder.RecordingTask.Stop | speech_recognizer/android/app/src/main/kotlin/com/bookbot/audio/MicrophoneRecorder.kt:71-79 | the raw stream is closed |
| Recorder.RecordingTask.CleanUp | speech_recognizer/android/app/src/main/kotlin/com/bookbot/audio/MicrophoneRecorder.kt:48-59 | `cleanUp` does what `CleanUpStep` says |
| Recorder.RecordingTask.Export | speech_recognizer/android/app/src/main/kotlin/com/bookbot/audio/MicrophoneRecorder.kt:85-116 | `export` does what `ExportStep` says |
| Recorder.RecordingTask.RecordMic | speech_recognizer/android/app/src/main/kotlin/com/bookbot/audio/MicrophoneRecorder.kt:118-130 | the byte loop appends every sample of the buffer to an open raw file, low byte first, whatever `readSize` says |
| Recorder.RecordingTask.RecordTranscript | speech_recognizer/android/app/src/main/kotlin/com/bookbot/audio/MicrophoneRecorder.kt:146-159 | the list becomes `Recorded` of the old one and keeps its no-equal-neighbours invariant |
| Recorder.ReplaceBranchIsIdentity | speech_recognizer/android/app/src/main/kotlin/com/bookbot/audio/MicrophoneRecorder.kt:153-156 | whenever the replace branch is reached its `contains` test holds and it writes back the same list |
| Recorder.IndexOf | speech_recognizer/android/app/src/main/kotlin/com/bookbot/audio/MicrophoneRecorder.kt:170 | the key's last entry is found, and none is found exactly when the key is absent |
| Recorder.Find | speech_recognizer/android/app/src/main/kotlin/com/bookbot/audio/MicrophoneRecorder.kt:180 | a lookup succeeds exactly when the key is present, and returns a task stored under it |
| Recorder.Put | speech_recognizer/android/app/src/main/kotlin/com/bookbot/audio/MicrophoneRecorder.kt:247 | storing under an existing key replaces that entry in place; a new key goes last |
| Recorder.RemoveKey | speech_recognizer/android/app/src/main/kotlin/com/bookbot/audio/MicrophoneRecorder.kt:233 | after removing a key no entry has it |
| Recorder.RemoveOnly | speech_recognizer/android/app/src/main/kotlin/com/bookbot/audio/MicrophoneRecorder.kt:233 | removing a key that occurs once drops exactly that entry and keeps the order of the rest |
| Recorder.FindPut | speech_recognizer/android/app/src/main/kotlin/com/bookbot/audio/MicrophoneRecorder.kt:247 | after storing a task under a key, looking the key up gives that task |
| Recorder.PutDistinct | speech_recognizer/android/app/src/main/kotlin/com/bookbot/audio/MicrophoneRecorder.kt:247 | storing a new task keeps keys and tasks distinct |
| Recorder.SelectDistinct | speech_recognizer/android/app/src/main/kotlin/com/bookbot/audio/MicrophoneRecorder.kt:233 | removing entries keeps keys and tasks distinct |
| Recorder.RemainingSelect | speech_recognizer/android/app/src/main/kotlin/com/bookbot/audio/MicrophoneRecorder.kt:229-238 | removing the dropped keys one by one leaves the kept entries in order, then the unvisited ones |
| Recorder.ExportTasks | speech_recognizer/android/app/src/main/kotlin/com/bookbot/audio/MicrophoneRecorder.kt:209-212 | the export loop over a copy of the table does what `ExportAll` says |
| Recorder.FlushTask | speech_recognizer/android/app/src/main/kotlin/com/bookbot/audio/MicrophoneRecorder.kt:231-237 | one sweep entry does what `FlushStep` says and changes no other task |
| Recorder.SweepTasks | speech_recognizer/android/app/src/main/kotlin/com/bookbot/audio/MicrophoneRecorder.kt:229-238 | the sweep leaves the kept entries, in order, and the files and task states `FlushAll` gives |
| Recorder.MicrophoneRecorder.constructor | speech_recognizer/android/app/src/main/kotlin/com/bookbot/audio/MicrophoneRecorder.kt:163-176 | a new recorder has an empty table and current key 0 |
| Recorder.MicrophoneRecorder.CurrentPath | speech_recognizer/android/app/src/main/kotlin/com/bookbot/audio/MicrophoneRecorder.kt:251-253 | the current task's path stem, or the empty string without one |
| Recorder.MicrophoneRecorder.RecordMicBuffer | speech_recognizer/android/app/src/main/kotlin/com/bookbot/audio/MicrophoneRecorder.kt:179-186 | the buffer goes to the current task's raw file, or nowhere without a current task |
| Recorder.MicrophoneRecorder.RecordTranscript | speech_recognizer/android/app/src/main/kotlin/com/bookbot/audio/MicrophoneRecorder.kt:198-205 | the transcript goes to the current task's list, keeping the table's invariant |
| Recorder.MicrophoneRecorder.Stop | speech_recognizer/android/app/src/main/kotlin/com/bookbot/audio/MicrophoneRecorder.kt:207-214 | every task is exported in order, the table is kept and the current key is 0 |
| Recorder.MicrophoneRecorder.Release | speech_recognizer/android/app/src/main/kotlin/com/bookbot/audio/MicrophoneRecorder.kt:215-224 | every task is exported in order, then the table is emptied and the current key is 0 |
| Recorder.MicrophoneRecorder.FlushSpeech | speech_recognizer/android/app/src/main/kotlin/com/bookbot/audio/MicrophoneRecorder.kt:227-249 | complete tasks are cleaned up and leave the table, the others are exported; unless the new prompt is empty, a new task under the timestamp becomes current and opens its raw file |
| Recorder.MicrophoneRecorder.Sweep | speech_recognizer/android/app/src/main/kotlin/com/bookbot/audio/MicrophoneRecorder.kt:229-238 | the table keeps the kept entries, in order, and stays valid |
| Recorder.MicrophoneRecorder.AddTask | speech_recognizer/android/app/src/main/kotlin/com/bookbot/audio/MicrophoneRecorder.kt:245-248 | a new task at `<saveDir>/<recordingId>_<now>` is stored under `now` and becomes current, and its raw file is opened |
| MethodResult.AtMostOnce | speech_recognizer/android/app/src/main/kotlin/com/bookbot/utils/MethodResultWrapper.kt:21-47 | on a fresh wrapper exactly the first reply of any series reaches the wrapped result, unchanged; on a used one none does |
| MethodResult.ResultLog.constructor | speech_recognizer/android/app/src/main/kotlin/com/bookbot/utils/MethodResultWrapper.kt:21 | the wrapped result starts with no reply |
| MethodResult.ResultLog.Receive | speech_recognizer/android/app/src/main/kotlin/com/bookbot/utils/MethodResultWrapper.kt:21 | the wrapped result records each reply it gets |
| MethodResult.MethodResultWrapper.constructor | speech_recognizer/android/app/src/main/kotlin/com/bookbot/utils/MethodResultWrapper.kt:21-26 | a new wrapper has submitted nothing |
| MethodResult.MethodResultWrapper.Success | speech_recognizer/android/app/src/main/kotlin/com/bookbot/utils/MethodResultWrapper.kt:28-33 | the success reaches the wrapped result only if nothing was submitted before; afterwards the wrapper counts as used |
| MethodResult.MethodResultWrapper.Error | speech_recognizer/android/app/src/main/kotlin/com/bookbot/utils/MethodResultWrapper.kt:35-40 | the error reaches the wrapped result only if nothing was submitted before; afterwards the wrapper counts as used |
| MethodResult.MethodResultWrapper.NotImplemented | speech_recognizer/android/app/src/main/kotlin/com/bookbot/utils/MethodResultWrapper.kt:42-47 | the not-implemented reply reaches the wrapped result only if nothing was submitted before; afterwards the wrapper counts as used |
| IosSpeech.TapGuards | speech_recognizer/ios/Runner/SpeechController.swift:1073-1090 | a buffer dropped by a guard changes nothing; otherwise iOS never records transcripts, and only endpoint events carry `isNoSpeech` |
| IosSpeech.NewSlot | speech_recognizer/ios/Runner/SpeechController.swift:540-570 | the word cache gains the language only in word mode when it lacks it; otherwise the phoneme cache gains it when it lacks it; nothing is added exactly when the needed caches already hold it |
| IosSpeech.RecordingExportPath | speech_recognizer/ios/Runner/SpeechController.swift:1193-1211 | there is no export path exactly when the profile, the recording path or the application directory is missing |
| IosSpeech.ExportPathShape | speech_recognizer/ios/Runner/SpeechController.swift:1193-1211 | the path is the recording's directory followed by `<profileId>_<millis>.m4a` |
| IosSpeech.ExportPathInjective | speech_recognizer/ios/Runner/SpeechController.swift:1193-1211 | two exports of one recording at different milliseconds get different paths |
| IosSpeech.SafeIndex | speech_recognizer/ios/Runner/SpeechController.swift:1362-1364 | the element exactly when the index is in bounds |
| IosSpeech.States | speech_recognizer/ios/Runner/SpeechController.swift:575-596 | the engine states of a cache have the cache's languages |
| IosSpeech.Finished | speech_recognizer/ios/Runner/SpeechController.swift:575-596 | every word recognizer's log gains a restart and an input-finished call, and nothing is left to decode |
| IosSpeech.FinishRecognizers | speech_recognizer/ios/Runner/SpeechController.swift:575-596 | the `forEach` restarts every recognizer of the cache and finishes its input |
| IosSpeech.SpeechController.GetHandler | speech_recognizer/ios/Runner/SpeechController.swift:521-523 | there is a handler exactly when the current mode's cache holds the current language, and it is that entry |
| IosSpeech.SpeechController.constructor | speech_recognizer/ios/Runner/SpeechController.swift:20-112 | a new controller listens, has the microphone enabled, no engine, language "en", phoneme mode and the counters at their start values |
| IosSpeech.SpeechController.LoadModel | speech_recognizer/ios/Runner/SpeechController.swift:527-572 | the detector is created once; at most one recognizer is added, in the slot `NewSlot` names; no cached entry is replaced; afterwards the current mode's cache holds the language |
| IosSpeech.SpeechController.InitSpeech | speech_recognizer/ios/Runner/SpeechController.swift:1130-1151 | the last result is forgotten and the language and mode taken; unless in the background, the profile is taken and a handler and a detector exist afterwards |
| IosSpeech.SpeechController.FlushSpeech | speech_recognizer/ios/Runner/SpeechController.swift:1221-1243 | the last result is forgotten, the expected text and grammar are set, and listening resumes |
| IosSpeech.SpeechController.SetListen | speech_recognizer/ios/Runner/SpeechController.swift:192-206 | the listen flag takes the value asked for and nothing the recognition uses changes |
| IosSpeech.SpeechController.StopSearch | speech_recognizer/ios/Runner/SpeechController.swift:575-596 | nothing without a word recognizer or once detached; otherwise every word recognizer is restarted and finished, the detector reset, the word cache emptied and word mode left |
| IosSpeech.SpeechController.StopWordSearch | speech_recognizer/ios/Runner/SpeechController.swift:580-595 | the stopping work restarts and finishes every word recognizer, resets the detector and leaves word mode |
| IosSpeech.SpeechController.ClearWordCache | speech_recognizer/ios/Runner/SpeechController.swift:593-594 | the word cache is emptied and word mode left |
| IosSpeech.SpeechController.ResetVad | speech_recognizer/ios/Runner/SpeechController.swift:591 | the detector, if any, is reset |
| IosSpeech.SpeechController.ResetSpeech | speech_recognizer/ios/Runner/SpeechController.swift:696-708 | while listening the current recognizer's stream is restarted and the detector reset; otherwise neither changes |
| IosSpeech.SpeechController.SetContextBiasing | speech_recognizer/ios/Runner/SpeechController.swift:711-725 | with a string while listening, the current recognizer is reset with it as hotwords (a new stream when non-empty) and the detector reset; otherwise nothing changes |
| IosSpeech.SpeechController.Tap | speech_recognizer/ios/Runner/SpeechController.swift:1073-1090 | a tapped buffer is one quantum of the state machine when every guard passes, and changes nothing otherwise |
| IosSpeech.SpeechController.Recognize | speech_recognizer/ios/Runner/SpeechController.swift:748-956 | while listening, with a recognizer and a detector, a buffer is one step of the shared state machine for iOS; otherwise nothing observable changes |
| IosSpeech.SpeechController.RunQuantum | speech_recognizer/ios/Runner/SpeechController.swift:788-952 | a non-empty buffer goes to both engines and through the branches, as the shared quantum function says |
| IosSpeech.SpeechController.React | speech_recognizer/ios/Runner/SpeechController.swift:800-952 | the branch code does what the shared branch function says for iOS |
| IosSpeech.SpeechController.DecodeAndReport | speech_recognizer/ios/Runner/SpeechController.swift:808-849 | the speaking branch drains the recognizer and sends the result unless it repeats the last one |
| IosSpeech.SpeechController.FlushEngines | speech_recognizer/ios/Runner/SpeechController.swift:935-949 | the silent reset drains the recognizer, empties the detector and restarts the stream |
| IosSpeech.SpeechController.ReportEndpoint | speech_recognizer/ios/Runner/SpeechController.swift:860-912 | the endpoint pads in phoneme mode, drains the recognizer, always sends one final event, then empties the detector and restarts the stream |
| IosSpeech.SpeechController.RecognizeWithoutVad | speech_recognizer/ios/Runner/SpeechController.swift:391-470 | while listening, a non-empty buffer is decoded and its result sent unless it repeats the last one; the counters are untouched |
| Measure.MinMaxBound | speech_recognizer/ios/Runner/MeasureHelper.swift:37-38 | the minimum and maximum bound every interval and are among them |
| Measure.SumBounds | speech_recognizer/ios/Runner/MeasureHelper.swift:39 | the sum lies between count times minimum and count times maximum |
| Measure.AverageBetween | speech_recognizer/ios/Runner/MeasureHelper.swift:39 | the average lies between minimum and maximum and times the count gives the sum |
| Measure.MeasureInfo.constructor | speech_recognizer/ios/Runner/MeasureHelper.swift:19-22 | a new entry has both timestamps 0 and no interval |
| Measure.MeasureInfo.Count | speech_recognizer/ios/Runner/MeasureHelper.swift:24-26 | the interval end minus start is appended |
| Measure.MeasureInfo.Reset | speech_recognizer/ios/Runner/MeasureHelper.swift:28-31 | both timestamps go back to 0 and the intervals are kept |
| Measure.MeasureInfo.Export | speech_recognizer/ios/Runner/MeasureHelper.swift:33-42 | nothing for no interval; otherwise exactly the keys min, max, avg and last, with min and max bounding and among the intervals, the average between them and equal to sum over count, and last the latest interval |
| Measure.MeasureHelper.constructor | speech_recognizer/ios/Runner/MeasureHelper.swift:46-48 | the table starts empty and nothing was exported |
| Measure.MeasureHelper.Start | speech_recognizer/ios/Runner/MeasureHelper.swift:50-55 | the entry exists afterwards, created if absent, with its start set to the clock; other entries are untouched |
| Measure.MeasureHelper.End | speech_recognizer/ios/Runner/MeasureHelper.swift:57-66 | the entry exists afterwards, the interval since its start is appended, both timestamps reset, and its export goes to the listener |
| Measure.MeasureHelper.Reset | speech_recognizer/ios/Runner/MeasureHelper.swift:72-74 | every entry is dropped |

## Left out

- Audio capture: `AudioRecord`, `retryInitRecorder`, the microphone loop of the recognizer thread, `AVAudioEngine`, the audio session and the input node are not modelled; each quantum is a call of `Recognize` or `Tap`.
- Resampling, `downSample` and the low-pass filter work in floating point; buffers enter the model already at the 16 kHz model rate, and `processAudio`'s resampler is a parameter.
- Threads and queues (`callbackQueue` aside, which is modelled), `DispatchQueue.recordingQueue`, `encodeQueue`, the iOS `recognitionQueue` and the main handler run their jobs at once and in submission order, so races and interleavings are not modelled.
- The sherpa-onnx recognizer and the Silero detector are scripted objects; neither decoding nor voice detection is modelled, and the adapter's `inputFinished` on the old stream before recreating one is not logged.
- Loading models from assets, `initModel`'s reading of model directories, and `setListener` are not modelled.
- `restart`'s delay is not modelled: the posted `start` becomes a count of pending starts run by `RunDelayedStart`.
- `SpeechServiceImpl`'s forwarding of recorder calls (`recordMicBuffer`, `recordASRBuffer`, `recordTranscript`, `restartRecorder`), and `recognizeAudio` are not modelled; the recorder is modelled on its own. The callback that `startListening` attaches is modelled only as present or absent, and its only implementation is `SpeechServiceImpl`.
- `destroy` also releases the recorder; that call is in `Recorder.MicrophoneRecorder.Release` only and is not linked.
- `initModel` replaces the buffered service without stopping the old one; the old thread is not modelled after that.
- `RECORD_ASR_AUDIO` is false in the configuration, so `recordASR`, `recordASRBuffer` and the `_asr.raw` files are not modelled.
- AAC encoding is an opaque `AacData` value; JSON serialisation of the sidecar is its two fields; directory creation (`mkdirs`) is not modelled.
- Pcm.ReadWavFile: the source's single `read` of the 44-byte header may return fewer bytes on a longer stream, and `readWavFile` then returns null; the model reads the stream as its whole contents, so only a file shorter than the header is refused.
- A file that does not hold PCM counts as empty when its length is taken; only raw PCM files are ever measured.
- Level smoothing and the floor below 1.0 in `onData` use floating point and are not modelled; `SpeechService.VolumeLevel` computes the unsmoothed percentage in exact arithmetic.
- In the latency statistics, `Double` values are exact reals and `Int64` timestamps are unbounded integers, so rounding and overflow are not modelled; the clock and the listener's action are parameters.
- Event payloads of type `Any?` in `MethodResultWrapper` are optional strings.
- The `stopSearch` closure's `pause()` and `resume()` check `ready` in the source; the model assumes the service is ready when the closure runs.
- SpeechService.SpeechServiceImpl.SetContextBiasing: a recognizer it creates on the spot is unloaded, so the call throws; the model reports that the call threw and what the new recognizer's engines then hold, not the exception itself.
- Engine.Sherpa.InitModel: calling `initModel` again on a loaded adapter builds new engines but keeps the stream; the model keeps the existing scripted engines.
- An unloaded adapter is modelled without a stream, the only way one is made; its `acceptWaveform`, `decode` and result are then no-ops, and every reset and every detector call throws.
- BufferedRecognition.AndroidRecognize: when a closure drained at the start of a quantum restarts the thread, the rest of that quantum is modelled with the new thread's flags.
- iOS: `audioPermission`, `authorize`, `recognizeAudio`, recording to and saving `.m4a` files, the level meter, `enableMicrophone`, `destroyRecognizer` and plugin lifecycle notifications are not modelled; the export path is computed but no file is written.
- IosSpeech.SpeechController.InitSpeech: the source force-unwraps its second argument, so the model requires it to be present.
- The tail padding length `sampleRate * 0.16` is truncated to a whole number of samples.
- The `windowSize` of 0 and a missing event sink cannot occur in the configured code and are not modelled.

/**
 * Android `BufferedRecognitionService` and its `RecognizerThread`: the queue
 * of deferred engine callbacks, the thread's pause flag and last reported
 * result, and the per-quantum `recognize` step with its VAD endpointing.
 *
 * The microphone loop of the thread is not modelled: each call of `Recognize`
 * is one quantum the thread handed to the recognition queue, already
 * resampled to the model rate.  The only recognizer callback there is, is
 * `SpeechServiceImpl` itself, and the queued closures call its
 * `speechRecognizer()` too, so one adapter `eng` serves both the closures and
 * the quantum; the thread records whether a callback is registered at all.
 * What `isWordMode` and `shouldPause()` of the callback answer are parameters.
 */
module BufferedRecognition {
  import opened Common
  import opened Pcm
  import opened Chunking
  import opened Engine
  import opened Endpointing

  /**
   * `AUDIO_BUFFER_SIZE`: 0.1 s at the 16 kHz model rate, but the microphone
   * records at 44.1 kHz, so a quantum of this many samples is about 36 ms.
   */
  const AudioBufferSize: nat := 1600
  /** `VAD_WINDOWS_SIZE`, the value `windowSize()` returns. */
  const VadWindowSize: nat := 512
  /** `MODEL_SAMPLE_RATE`, the `speechSampleRate` the service is built with. */
  const ModelSampleRate: nat := 16000

  /** The closures `SpeechServiceImpl` hands to `runOnBuffer`. */
  datatype Callback =
    | ResetSession                  // reset(): reset(recreate = true), vadReset()
    | ContextBiasing(hotwords: string) // setContextBiasing(h): reset(h, recreate = true), vadReset()
    | StopSearchCleanup             // stopSearch(): pause(), reset(), inputFinished(), vadReset(), resume()

  /** What a callback does to the recognizer. */
  function CallbackAsr(cb: Callback, a: AsrState): AsrState {
    match cb
    case ResetSession => AsrReset(a, "", true)
    case ContextBiasing(h) => AsrReset(a, h, true)
    case StopSearchCleanup => AsrInputFinished(AsrReset(a, "", false))
  }

  function CallbackCalls(cb: Callback): seq<AsrCall> {
    match cb
    case ResetSession => [AsrCall.Reset("", true)]
    case ContextBiasing(h) => [AsrCall.Reset(h, true)]
    case StopSearchCleanup => [AsrCall.Reset("", false), AsrCall.InputFinished]
  }

  /** The callbacks' effect on the recognizer, run in order. */
  function CallbacksAsr(cbs: seq<Callback>, a: AsrState): AsrState
    decreases |cbs|
  {
    if cbs == [] then a else CallbacksAsr(cbs[1..], CallbackAsr(cbs[0], a))
  }

  /** Every callback ends with `vadReset()`. */
  function CallbacksVad(cbs: seq<Callback>, v: VadState): VadState
    decreases |cbs|
  {
    if cbs == [] then v else CallbacksVad(cbs[1..], VadResetState(v))
  }

  function AllCallbackCalls(cbs: seq<Callback>): seq<AsrCall>
    decreases |cbs|
  {
    if cbs == [] then [] else CallbackCalls(cbs[0]) + AllCallbackCalls(cbs[1..])
  }

  /** The recognizer receives the callbacks' calls in FIFO order, after everything it received before. */
  lemma {:induction false} CallbacksAsrLog(cbs: seq<Callback>, a: AsrState)
    ensures CallbacksAsr(cbs, a).calls == a.calls + AllCallbackCalls(cbs)
    decreases |cbs|
  {
    if cbs != [] {
      CallbacksAsrLog(cbs[1..], CallbackAsr(cbs[0], a));
      assert CallbackAsr(cbs[0], a).calls == a.calls + CallbackCalls(cbs[0]);
    }
  }

  /**
   * The part of the service a quantum sees besides the engines: whether a
   * recognizer thread exists and runs, its pause flag, whether it has a
   * recognizer callback (`attached`), its `lastReadResult`, and the pending
   * callbacks.  After the thread is dropped the pause flag and the last result
   * are those of the last thread.
   */
  datatype Worker = Worker(hasThread: bool, running: bool, paused: bool, attached: bool, last: string, queue: seq<Callback>)

  /** `stop()`: the thread is paused, interrupted and joined, the queue cleared and the thread, with its callback, dropped. */
  function StopWorker(w: Worker): Worker {
    if !w.hasThread then w
    else w.(hasThread := false, running := false, paused := true, attached := false, queue := [])
  }

  /** `initRecognizerThread()`: stop, then a new running thread, unpaused, with no callback and `lastReadResult = ""`. */
  function StartThread(w: Worker): Worker {
    StopWorker(w).(hasThread := true, running := true, paused := false, attached := false, last := "")
  }

  /** `startListening(callback)`: a thread is created when there is none, and the callback (or none) is set on it. */
  function ListenWorker(w: Worker, callback: bool): (r: Worker)
    ensures r.hasThread && r.attached == callback
    ensures w.hasThread ==> r == w.(attached := callback)
  {
    (if w.hasThread then w else StartThread(w)).(attached := callback)
  }

  /** `setPause(p)`: a new thread is started on resume when there is no running one. */
  function SetPauseWorker(w: Worker, p: bool): Worker {
    var w1 := if w.hasThread then w.(paused := p) else w;
    if !p && !(w1.hasThread && w1.running) then StartThread(w1) else w1
  }

  /** What running one callback does to the service itself: only the stop-search cleanup pauses and resumes. */
  function InvokeWorker(w: Worker, cb: Callback): (r: Worker)
    ensures |r.queue| <= |w.queue|
  {
    if cb.StopSearchCleanup? then SetPauseWorker(SetPauseWorker(w, true), false) else w
  }

  /** The service after the `while (callbackQueue.poll())` loop. */
  function Drained(w: Worker): (r: Worker)
    ensures r.queue == []
    decreases |w.queue|
  {
    if w.queue == [] then w
    else Drained(InvokeWorker(w.(queue := w.queue[1..]), w.queue[0]))
  }

  /** The callbacks that loop actually runs, in order (a thread restart clears the rest). */
  function Ran(w: Worker): seq<Callback>
    decreases |w.queue|
  {
    if w.queue == [] then []
    else [w.queue[0]] + Ran(InvokeWorker(w.(queue := w.queue[1..]), w.queue[0]))
  }

  /**
   * With a running thread every queued callback runs, in FIFO order, and the
   * pause flag ends up cleared exactly when a stop-search cleanup was among them.
   */
  lemma {:induction false} DrainRunsAll(w: Worker)
    requires w.hasThread && w.running
    ensures Ran(w) == w.queue
    ensures Drained(w) == w.(queue := [], paused := if StopSearchCleanup in w.queue then false else w.paused)
    decreases |w.queue|
  {
    if w.queue != [] {
      var next := InvokeWorker(w.(queue := w.queue[1..]), w.queue[0]);
      DrainRunsAll(next);
      assert w.queue == [w.queue[0]] + w.queue[1..];
    }
  }

  /** One poll of a non-empty queue. */
  lemma PollStep(w: Worker)
    requires w.queue != []
    ensures var next := InvokeWorker(w.(queue := w.queue[1..]), w.queue[0]);
      Drained(w) == Drained(next) && Ran(w) == [w.queue[0]] + Ran(next)
  {
  }

  /**
   * The poll loop on an adapter that was never loaded: the first callback
   * throws at its first engine call.  This gives the objects' state at the
   * throw: the stop-search cleanup has called `pause()` by then and never
   * reaches `resume()`, and the rest of the queue is still there.  On Android
   * the exception is uncaught on the recognition executor and ends the
   * process, so no later call sees this state.
   */
  function Aborted(w: Worker): (r: Worker)
    ensures r.queue == if w.queue == [] then [] else w.queue[1..]
    ensures r.last == w.last && r.attached == w.attached
  {
    if w.queue == [] then w
    else
      var rest := w.(queue := w.queue[1..]);
      if w.queue[0].StopSearchCleanup? then SetPauseWorker(rest, true) else rest
  }

  /** The recognizer's and detector's state after the callbacks that ran. */
  function Prepared(w: Worker, s: Session): Session {
    var ran := Ran(w);
    s.(last := Some(Drained(w).last), asr := CallbacksAsr(ran, s.asr), vad := CallbacksVad(ran, s.vad))
  }

  function LastOr(last: Option<string>): string {
    if last.Some? then last.value else ""
  }

  /**
   * `recognize(buffer, readSize)` on the adapter `eng`, loaded or not: drain the
   * callbacks; skip the quantum while paused or without a callback; otherwise
   * run the endpointing step.  The first component says whether an exception
   * ends the call: a callback on an unloaded adapter, or `vadAcceptWaveForm`
   * on one after the (then streamless, so idle) `acceptWaveform`.
   */
  function AndroidRecognize(cfg: Config, rate: nat, w: Worker, s: Session, loaded: bool, shouldPause: bool, samples: seq<int>, wordMode: bool, windowSize: nat): (bool, Worker, Session)
    requires windowSize > 0
  {
    if !loaded && w.queue != [] then (true, Aborted(w), s)
    else
      var d := Drained(w);
      var p := Prepared(w, s);
      if d.paused || !d.attached || shouldPause then (false, d, p)
      else if !loaded && samples != [] then (true, d, p.(asr := AsrAccept(p.asr, samples)))
      else
        var r := Quantum(Android, cfg, p, samples, wordMode, windowSize, rate);
        (false, d.(last := LastOr(r.last)), r)
  }

  /** `recognizeWithoutVAD(buffer, readSize)` on the adapter `eng`: drain, then decode and report when a callback is set. */
  function AndroidWithoutVad(w: Worker, s: Session, loaded: bool, samples: seq<int>, wordMode: bool): (bool, Worker, Session) {
    if !loaded && w.queue != [] then (true, Aborted(w), s)
    else
      var d := Drained(w);
      var p := Prepared(w, s);
      if !d.attached then (false, d, p)
      else
        var r := WithoutVad(Android, p, samples, wordMode);
        (false, d.(last := LastOr(r.last)), r)
  }

  /** The chunks of a recording fed through `recognizeWithoutVAD`, one after the other, until one throws. */
  function AndroidChunks(w: Worker, s: Session, loaded: bool, chunks: seq<(seq<int>, nat)>, resample: seq<int> -> seq<int>, wordMode: bool): (bool, Worker, Session)
    decreases |chunks|
  {
    if chunks == [] then (false, w, s)
    else
      var next := AndroidWithoutVad(w, s, loaded, resample(chunks[0].0), wordMode);
      if next.0 then next else AndroidChunks(next.1, next.2, loaded, chunks[1..], resample, wordMode)
  }

  /** A paused or detached quantum runs the callbacks and nothing else: no counter, event or transcript changes. */
  lemma PausedQuantumIsSkipped(cfg: Config, rate: nat, w: Worker, s: Session, loaded: bool, shouldPause: bool, samples: seq<int>, wordMode: bool, windowSize: nat)
    requires windowSize > 0
    requires Drained(w).paused || !Drained(w).attached || shouldPause
    ensures var r := AndroidRecognize(cfg, rate, w, s, loaded, shouldPause, samples, wordMode, windowSize).2;
      r.counters == s.counters && r.events == s.events && r.transcripts == s.transcripts
  {
  }

  /**
   * With no callback registered (after `destroyRecognizer`) the queued
   * closures still run on the service's adapter: every reset reaches the
   * recognizer and the detector, in order, and nothing is reported.
   */
  lemma DetachedQuantumRunsCallbacks(cfg: Config, rate: nat, w: Worker, s: Session, shouldPause: bool, samples: seq<int>, wordMode: bool, windowSize: nat)
    requires windowSize > 0 && w.hasThread && w.running && !w.attached
    ensures var r := AndroidRecognize(cfg, rate, w, s, true, shouldPause, samples, wordMode, windowSize);
      !r.0 && r.1.queue == [] &&
      r.2.asr == CallbacksAsr(w.queue, s.asr) && r.2.vad == CallbacksVad(w.queue, s.vad) &&
      r.2.counters == s.counters && r.2.events == s.events && r.2.transcripts == s.transcripts
  {
    DrainRunsAll(w);
  }

  /**
   * On an adapter that was never loaded a quantum with pending callbacks
   * throws at the first one.  At the throw the engines and the session are
   * untouched, the rest of the queue is still there, and a stop-search cleanup
   * has left the thread paused; the uncaught exception then ends the process.
   */
  lemma UnloadedQuantumThrows(cfg: Config, rate: nat, w: Worker, s: Session, shouldPause: bool, samples: seq<int>, wordMode: bool, windowSize: nat)
    requires windowSize > 0 && w.queue != []
    ensures var r := AndroidRecognize(cfg, rate, w, s, false, shouldPause, samples, wordMode, windowSize);
      r.0 && r.2 == s && r.1.queue == w.queue[1..] &&
      (w.hasThread && w.queue[0].StopSearchCleanup? ==> r.1.paused)
  {
  }

  /**
   * A quantum's engine calls: first what the queued callbacks ask of the
   * recognizer, in FIFO order, then (when not paused) the quantum's own samples.
   */
  lemma CallbacksBeforeQuantum(cfg: Config, rate: nat, w: Worker, s: Session, shouldPause: bool, samples: seq<int>, wordMode: bool, windowSize: nat)
    requires windowSize > 0 && w.hasThread && w.running && w.attached
    requires !Drained(w).paused && !shouldPause && samples != []
    ensures exists rest ::
      AndroidRecognize(cfg, rate, w, s, true, shouldPause, samples, wordMode, windowSize).2.asr.calls == s.asr.calls + AllCallbackCalls(w.queue) + [AsrCall.AcceptWaveform(samples)] + rest
  {
    DrainRunsAll(w);
    CallbacksAsrLog(w.queue, s.asr);
    QuantumAcceptsFirst(Android, cfg, Prepared(w, s), samples, wordMode, windowSize, rate);
  }

  /** What a callback asks of the recognizer and the detector. */
  method RunOnEngines(cb: Callback, rec: Sherpa)
    modifies rec.asr, rec.vad
    ensures rec.asr.State() == CallbackAsr(cb, old(rec.asr.State()))
    ensures rec.vad.State() == VadResetState(old(rec.vad.State()))
  {
    match cb {
      case ResetSession => rec.asr.Reset("", true);
      case ContextBiasing(h) => rec.asr.Reset(h, true);
      case StopSearchCleanup =>
        rec.asr.Reset("", false);
        rec.asr.InputFinished();
    }
    rec.vad.Reset();
  }

  class RecognitionService {
    const cfg: Config
    const speechSampleRate: nat
    var counters: Counters
    var hasThread: bool
    var running: bool
    var paused: bool
    /** Whether the thread's `recognizerCallback` is set. */
    var attached: bool
    var lastReadResult: string
    var callbackQueue: seq<Callback>
    /** Results passed to `listener.onResult`, in order. */
    var events: seq<Event>
    /** Strings passed to `recognizerCallback.recordTranscript`, in order. */
    var transcripts: seq<string>

    function WorkerOf(): Worker
      reads this
    {
      Worker(hasThread, running, paused, attached, lastReadResult, callbackQueue)
    }

    function SessionOf(rec: Sherpa): Session
      reads this, rec.asr, rec.vad
    {
      Session(counters, Some(lastReadResult), events, transcripts, rec.asr.State(), rec.vad.State())
    }

    /** The `init` block: the recorder is not modelled; it ends with `initRecognizerThread()`. */
    constructor(speechSampleRate: nat)
      ensures cfg == Default && this.speechSampleRate == speechSampleRate
      ensures WorkerOf() == StartThread(Worker(false, false, false, false, "", []))
      ensures counters == Initial && events == [] && transcripts == []
    {
      cfg := Default;
      this.speechSampleRate := speechSampleRate;
      counters := Initial;
      hasThread := true;
      running := true;
      paused := false;
      attached := false;
      lastReadResult := "";
      callbackQueue := [];
      events := [];
      transcripts := [];
    }

    /** `stop()`: false when there is no thread; otherwise the pending callbacks are discarded. */
    method Stop() returns (stopped: bool)
      modifies this
      ensures stopped == old(hasThread)
      ensures WorkerOf() == StopWorker(old(WorkerOf()))
      ensures stopped ==> callbackQueue == []
      ensures unchanged(`counters, `events, `transcripts)
    {
      if !hasThread {
        return false;
      }
      paused := true;
      running := false;
      attached := false;
      callbackQueue := [];
      hasThread := false;
      return true;
    }

    method InitRecognizerThread()
      modifies this
      ensures WorkerOf() == StartThread(old(WorkerOf()))
      ensures unchanged(`counters, `events, `transcripts)
    {
      var _ := Stop();
      hasThread := true;
      running := true;
      paused := false;
      attached := false;
      lastReadResult := "";
    }

    /** `startListening(callback)`: a thread is created when there is none; `callback` says whether one is passed. */
    method StartListening(callback: bool)
      modifies this
      ensures WorkerOf() == ListenWorker(old(WorkerOf()), callback)
      ensures unchanged(`counters, `events, `transcripts)
    {
      if !hasThread {
        InitRecognizerThread();
      }
      attached := callback;
    }

    /** `runOnBuffer(call)`: the callback waits for the next quantum. */
    method RunOnBuffer(cb: Callback)
      modifies this
      ensures callbackQueue == old(callbackQueue) + [cb]
      ensures unchanged(`counters, `events, `transcripts, `hasThread, `running, `paused, `attached, `lastReadResult)
    {
      callbackQueue := callbackQueue + [cb];
    }

    /** `shutdown()`: the recorder release is not modelled; the thread is stopped. */
    method Shutdown()
      modifies this
      ensures WorkerOf() == StopWorker(old(WorkerOf()))
      ensures unchanged(`counters, `events, `transcripts)
    {
      var _ := Stop();
    }

    /** `setPause(paused)`. */
    method SetPause(p: bool)
      modifies this
      ensures WorkerOf() == SetPauseWorker(old(WorkerOf()), p)
      ensures unchanged(`counters, `events, `transcripts)
    {
      if hasThread {
        paused := p;
      }
      if !p && !(hasThread && running) {
        InitRecognizerThread();
      }
    }

    /** The end of `run()`: the microphone loop left (read error or interrupt), `isRunning = false`. */
    method RunFinished()
      modifies this
      ensures WorkerOf() == old(WorkerOf()).(running := false)
      ensures unchanged(`counters, `events, `transcripts)
    {
      running := false;
    }

    /**
     * The callback poll loop at the start of `recognize` and
     * `recognizeWithoutVAD`, each closure calling the service's adapter `eng`.
     * `thrown` says that an unloaded adapter made the first closure throw.
     */
    method DrainCallbacks(eng: Sherpa) returns (thrown: bool)
      modifies this, eng.asr, eng.vad
      ensures thrown <==> !eng.loaded && old(callbackQueue) != []
      ensures eng.loaded ==> WorkerOf() == Drained(old(WorkerOf()))
      ensures eng.loaded ==> eng.asr.State() == CallbacksAsr(Ran(old(WorkerOf())), old(eng.asr.State()))
      ensures eng.loaded ==> eng.vad.State() == CallbacksVad(Ran(old(WorkerOf())), old(eng.vad.State()))
      ensures !eng.loaded ==> WorkerOf() == Aborted(old(WorkerOf()))
      ensures !eng.loaded ==> eng.asr.State() == old(eng.asr.State()) && eng.vad.State() == old(eng.vad.State())
      ensures unchanged(`counters, `events, `transcripts)
    {
      ghost var w0 := WorkerOf();
      ghost var a0 := eng.asr.State();
      ghost var v0 := eng.vad.State();
      ghost var done: seq<Callback> := [];
      thrown := false;
      while callbackQueue != []
        invariant !thrown
        invariant Drained(WorkerOf()) == Drained(w0) && Ran(w0) == done + Ran(WorkerOf())
        invariant eng.loaded || (done == [] && WorkerOf() == w0)
        invariant unchanged(`counters, `events, `transcripts)
        invariant eng.asr.State() == CallbacksAsr(done, a0) && eng.vad.State() == CallbacksVad(done, v0)
        decreases |callbackQueue|
      {
        ghost var before := WorkerOf();
        ghost var cb := callbackQueue[0];
        PollStep(before);
        CallbacksAsrSnoc(done, cb, a0);
        CallbacksVadSnoc(done, cb, v0);
        thrown := PollOne(eng);
        if thrown {
          return;
        }
        done := done + [cb];
      }
      assert Ran(WorkerOf()) == [];
      assert done == Ran(w0);
    }

    /** One `callbackQueue.poll()` and the invocation of the closure it returns. */
    method PollOne(eng: Sherpa) returns (thrown: bool)
      requires callbackQueue != []
      modifies this, eng.asr, eng.vad
      ensures thrown == !eng.loaded
      ensures eng.loaded ==> WorkerOf() == InvokeWorker(old(WorkerOf()).(queue := old(callbackQueue[1..])), old(callbackQueue[0]))
      ensures eng.loaded ==> eng.asr.State() == CallbackAsr(old(callbackQueue[0]), old(eng.asr.State()))
      ensures eng.loaded ==> eng.vad.State() == VadResetState(old(eng.vad.State()))
      ensures !eng.loaded ==> WorkerOf() == Aborted(old(WorkerOf()))
      ensures !eng.loaded ==> eng.asr.State() == old(eng.asr.State()) && eng.vad.State() == old(eng.vad.State())
      ensures unchanged(`counters, `events, `transcripts)
    {
      var cb := callbackQueue[0];
      callbackQueue := callbackQueue[1..];
      if !eng.loaded {
        // The closure's first engine call throws; the cleanup's `pause()` came before it.
        if cb.StopSearchCleanup? {
          SetPause(true);
        }
        return true;
      }
      RunOnEngines(cb, eng);
      InvokeOnService(cb);
      return false;
    }

    /** What a callback does to the service: the stop-search cleanup pauses, then resumes. */
    method InvokeOnService(cb: Callback)
      modifies this
      ensures WorkerOf() == InvokeWorker(old(WorkerOf()), cb)
      ensures unchanged(`counters, `events, `transcripts)
    {
      if cb.StopSearchCleanup? {
        SetPause(true);
        SetPause(false);
      }
    }

    /**
     * `recognize(buffer, readSize)`: run the pending callbacks, then, unless
     * paused or without a callback, one step of the endpoint state machine on
     * the quantum.  `thrown` says that an exception ended the call.
     */
    method Recognize(samples: seq<int>, shouldPause: bool, wordMode: bool, windowSize: nat, eng: Sherpa) returns (thrown: bool)
      requires windowSize > 0
      modifies this, eng.asr, eng.vad
      ensures (thrown, WorkerOf(), SessionOf(eng)) ==
        AndroidRecognize(cfg, speechSampleRate, old(WorkerOf()), old(SessionOf(eng)), eng.loaded, shouldPause, samples, wordMode, windowSize)
    {
      ghost var w0 := WorkerOf();
      ghost var s0 := SessionOf(eng);
      thrown := DrainCallbacks(eng);
      if thrown {
        return;
      }
      DrainedSession(w0, s0, eng.loaded);
      assert WorkerOf() == Drained(w0) && SessionOf(eng) == Prepared(w0, s0);
      if paused || !attached || shouldPause {
        return;
      }
      if !eng.loaded && samples != [] {
        // `acceptWaveform` finds no stream; `vadAcceptWaveForm` then throws.
        eng.asr.AcceptWaveform(samples);
        return true;
      }
      Step(samples, wordMode, windowSize, eng);
    }

    /** The body of `recognize` once the recognizer is known and the quantum is not paused. */
    method Step(samples: seq<int>, wordMode: bool, windowSize: nat, rec: Sherpa)
      requires windowSize > 0
      modifies this, rec.asr, rec.vad
      ensures SessionOf(rec) == Quantum(Android, cfg, old(SessionOf(rec)), samples, wordMode, windowSize, speechSampleRate)
      ensures unchanged(`hasThread, `running, `paused, `attached, `callbackQueue)
    {
      if samples == [] {
        return;
      }
      rec.asr.AcceptWaveform(samples);
      FeedWindows(rec.vad, samples, windowSize);
      React(wordMode, rec);
    }

    /** The branches of `recognize` once the quantum has gone to both engines. */
    method React(wordMode: bool, rec: Sherpa)
      modifies this, rec.asr, rec.vad
      ensures SessionOf(rec) == Respond(Android, cfg, old(SessionOf(rec)), old(rec.asr.State()), old(rec.vad.State()), wordMode, speechSampleRate)
      ensures unchanged(`hasThread, `running, `paused, `attached, `callbackQueue)
    {
      var hasSpeech := rec.vad.IsSpeechDetected();
      ghost var c0 := counters;
      ghost var next := Next(cfg, c0, hasSpeech);
      ghost var branch := Classify(cfg, c0, hasSpeech);
      if hasSpeech {
        counters := Counters(cfg.vadPatience, cfg.rule2);
      }
      if hasSpeech || counters.patience > 0 {
        assert branch == Speaking;
        if !hasSpeech {
          counters := counters.(patience := counters.patience - 1);
        }
        DecodeAndReport(wordMode, rec);
      } else if counters.reset >= 0 {
        if counters.reset == 0 {
          assert branch == Endpoint;
          ReportEndpoint(wordMode, hasSpeech, rec);
        } else {
          assert branch == Trailing;
        }
        counters := counters.(reset := counters.reset - 1);
      } else {
        events := events + [Event("", false, false, false, Some(false))];
        if counters.reset == -(cfg.rule1 as int) {
          assert branch == SilentReset;
          FlushEngines(rec);
          counters := counters.(reset := -1);
        } else {
          assert branch == Idle;
          counters := counters.(reset := counters.reset - 1);
        }
      }
      assert counters == next;
    }

    /** Decode what is ready, record the result and report it unless it repeats the last one. */
    method DecodeAndReport(wordMode: bool, rec: Sherpa)
      modifies this, rec.asr
      ensures rec.asr.State() == AsrDecodeAll(old(rec.asr.State()))
      ensures var result := AsrResult(rec.asr.State(), wordMode);
        lastReadResult == result &&
        transcripts == old(transcripts) + [result] &&
        events == old(events) + Dedup(Some(old(lastReadResult)), result, Event(result, false, false, true, Some(false)))
      ensures unchanged(`counters, `hasThread, `running, `paused, `attached, `callbackQueue)
    {
      DecodeWhileReady(rec.asr);
      var result := rec.asr.Result(wordMode);
      transcripts := transcripts + [result];
      if lastReadResult != result {
        lastReadResult := result;
        events := events + [Event(result, false, false, true, Some(false))];
      }
    }

    /** The endpoint: tail padding in phoneme mode, final decode, the final event, then both engines are cleared. */
    method ReportEndpoint(wordMode: bool, hasSpeech: bool, rec: Sherpa)
      modifies this, rec.asr, rec.vad
      ensures var a2 := if wordMode then old(rec.asr.State()) else AsrAccept(old(rec.asr.State()), Zeros(TailLength(speechSampleRate)));
        var a3 := AsrDecodeAll(a2);
        var result := AsrResult(a3, wordMode);
        rec.asr.State() == AsrReset(a3, "", true) &&
        rec.vad.State() == VadPopAll(old(rec.vad.State())) &&
        lastReadResult == result &&
        transcripts == old(transcripts) + [result] &&
        events == old(events) + [Event(result, true, true, false, Some(!hasSpeech))]
      ensures unchanged(`counters, `hasThread, `running, `paused, `attached, `callbackQueue)
    {
      if !wordMode {
        rec.asr.AcceptWaveform(Zeros(TailLength(speechSampleRate)));
      }
      DecodeWhileReady(rec.asr);
      var result := rec.asr.Result(wordMode);
      if lastReadResult != result {
        lastReadResult := result;
      }
      transcripts := transcripts + [result];
      events := events + [Event(result, true, true, false, Some(!hasSpeech))];
      PopUntilEmpty(rec.vad);
      rec.asr.Reset("", true);
    }

    /** A long silence: decode and drop what is queued, empty the detector, recreate the stream. */
    method FlushEngines(rec: Sherpa)
      modifies rec.asr, rec.vad
      ensures rec.asr.State() == AsrReset(AsrDecodeAll(old(rec.asr.State())), "", true)
      ensures rec.vad.State() == VadPopAll(old(rec.vad.State()))
    {
      DecodeWhileReady(rec.asr);
      PopUntilEmpty(rec.vad);
      rec.asr.Reset("", true);
    }

    /** `recognizeWithoutVAD(buffer, readSize)`: callbacks, then, with a callback set, decode and report without endpointing. */
    method RecognizeWithoutVad(samples: seq<int>, wordMode: bool, eng: Sherpa) returns (thrown: bool)
      modifies this, eng.asr, eng.vad
      ensures (thrown, WorkerOf(), SessionOf(eng)) == AndroidWithoutVad(old(WorkerOf()), old(SessionOf(eng)), eng.loaded, samples, wordMode)
    {
      ghost var w0 := WorkerOf();
      ghost var s0 := SessionOf(eng);
      thrown := DrainCallbacks(eng);
      if thrown {
        return;
      }
      DrainedSession(w0, s0, eng.loaded);
      assert WorkerOf() == Drained(w0) && SessionOf(eng) == Prepared(w0, s0);
      if !attached {
        return;
      }
      if samples != [] {
        eng.asr.AcceptWaveform(samples);
        DecodeAndReport(wordMode, eng);
      }
    }

    /**
     * `processAudio(inputStream)`, reached through the service's
     * `recognizerThread?.processAudio`: nothing without a thread.  Otherwise,
     * with a callback set, reset the recognizer (which throws on an unloaded
     * adapter); then read the WAV file and feed it in chunks of
     * `AUDIO_BUFFER_SIZE` samples, the last one padded with `speechSampleRate`
     * zeros, until a chunk throws.  The chunks count as recorded at
     * `recordingSampleRate` and are downsampled by the resampler, a parameter.
     */
    method ProcessAudio(contents: seq<Byte>, resample: seq<int> -> seq<int>, wordMode: bool, eng: Sherpa) returns (thrown: bool)
      modifies this, eng.asr, eng.vad
      ensures var w0 := old(WorkerOf());
        var s0 := old(SessionOf(eng));
        var s1 := if w0.attached then s0.(asr := AsrReset(s0.asr, "", false)) else s0;
        var audio := WavSamples(contents);
        (thrown, WorkerOf(), SessionOf(eng)) ==
          if !w0.hasThread then (false, w0, s0)
          else if w0.attached && !eng.loaded then (true, w0, s0)
          else if audio.None? then (false, w0, s1)
          else AndroidChunks(w0, s1, eng.loaded, PaddedChunks(audio.value, AudioBufferSize, speechSampleRate), resample, wordMode)
    {
      if !hasThread {
        return false;
      }
      if attached {
        if !eng.loaded {
          return true;
        }
        eng.asr.Reset("", false);
      }
      ghost var s1 := SessionOf(eng);
      var audio := ReadWavFile(contents);
      if audio.None? {
        return false;
      }
      var samples: seq<int> := audio.value;
      var offset := 0;
      while offset < |samples|
        invariant 0 <= offset <= |samples|
        invariant AndroidChunks(WorkerOf(), SessionOf(eng), eng.loaded, ChunksFrom(samples, AudioBufferSize, speechSampleRate, offset), resample, wordMode)
          == AndroidChunks(old(WorkerOf()), s1, eng.loaded, PaddedChunks(samples, AudioBufferSize, speechSampleRate), resample, wordMode)
        decreases |samples| - offset
      {
        var end := Min(offset + AudioBufferSize, |samples|);
        var buffer := samples[offset..end];
        var isLastChunk := end == |samples|;
        if isLastChunk {
          buffer := buffer + Zeros(speechSampleRate);
        }
        ghost var rest := ChunksFrom(samples, AudioBufferSize, speechSampleRate, offset);
        assert rest[0].0 == buffer && rest[1..] == ChunksFrom(samples, AudioBufferSize, speechSampleRate, end);
        thrown := RecognizeWithoutVad(resample(buffer), wordMode, eng);
        if thrown {
          return;
        }
        offset := end;
      }
      thrown := false;
    }
  }

  /** Without pending callbacks a drain changes nothing but makes the last result explicit. */
  lemma DrainedSession(w: Worker, s: Session, loaded: bool)
    requires loaded || w.queue == []
    ensures !loaded ==> Drained(w) == w && Prepared(w, s) == s.(last := Some(w.last))
  {
  }

  lemma {:induction false} CallbacksAsrSnoc(cbs: seq<Callback>, cb: Callback, a: AsrState)
    ensures CallbacksAsr(cbs + [cb], a) == CallbackAsr(cb, CallbacksAsr(cbs, a))
    decreases |cbs|
  {
    if cbs == [] {
      assert [cb][1..] == [];
    } else {
      assert (cbs + [cb])[1..] == cbs[1..] + [cb];
      CallbacksAsrSnoc(cbs[1..], cb, CallbackAsr(cbs[0], a));
    }
  }

  lemma {:induction false} CallbacksVadSnoc(cbs: seq<Callback>, cb: Callback, v: VadState)
    ensures CallbacksVad(cbs + [cb], v) == VadResetState(CallbacksVad(cbs, v))
    decreases |cbs|
  {
    if cbs == [] {
      assert [cb][1..] == [];
    } else {
      assert (cbs + [cb])[1..] == cbs[1..] + [cb];
      CallbacksVadSnoc(cbs[1..], cb, VadResetState(v));
    }
  }
}

/**
 * The Android speech service (`SpeechServiceImpl`): the lifecycle flags
 * `ready`, `isRunning`, `stopped` and `wordMode` around the buffered
 * recognition service, the per-mode recognizer cache, the work it defers to
 * the recognizer thread through `runOnBuffer`, and the microphone data
 * handler's peak level and error report.
 */
module SpeechService {
  import opened Common
  import opened Pcm
  import opened Engine
  import opened Endpointing
  import opened BufferedRecognition

  /** What the data handler posts to the main thread for the Flutter side. */
  datatype Post =
    | SpeechResult(event: Event)     // onSpeechResult(result, wasEndpoint, resetEndPos, isVoiceActive, isNoSpeech)
    | SpeechError(message: string)   // onSpeechError(ex, false)

  /**
   * The observable state of the service: its flags, the buffered service's
   * thread and queue (`None` before `initModel`), what it reported through
   * `recognizerRunningCallback`, how many delayed `start` calls `restart`
   * has posted, and what was posted to the main thread.
   */
  datatype Service = Service(
    ready: bool,
    isRunning: bool,
    stopped: bool,
    wordMode: bool,
    worker: Option<Worker>,
    reports: seq<bool>,
    pendingStarts: nat,
    posts: seq<Post>)

  /** The calls the service makes on the buffered service's thread. */
  datatype ThreadOp =
    | Listen(callback: bool)  // startListening(this) or startListening(null)
    | PauseThread(p: bool)    // setPause(p)
    | StopThread              // stop(), and shutdown()
    | Enqueue(cb: Callback)   // runOnBuffer(cb)

  function ApplyOp(w: Worker, op: ThreadOp): Worker {
    match op
    case Listen(callback) => ListenWorker(w, callback)
    case PauseThread(p) => SetPauseWorker(w, p)
    case StopThread => StopWorker(w)
    case Enqueue(cb) => w.(queue := w.queue + [cb])
  }

  /** `kaldiSpeechService?.op()`: nothing happens without a buffered service. */
  function OnThread(w: Option<Worker>, op: ThreadOp): (r: Option<Worker>)
    ensures r.Some? <==> w.Some?
  {
    if w.None? then None else Some(ApplyOp(w.value, op))
  }

  /** `start(grammar)`: refused (an `IllegalAccessException`) unless ready; otherwise listen, unpause, report running. */
  function StartStep(s: Service): (bool, Service) {
    if !s.ready then (false, s)
    else (true, s.(worker := OnThread(OnThread(s.worker, Listen(true)), PauseThread(false)),
                   isRunning := true, reports := s.reports + [true], stopped := false))
  }

  /** `stop(shouldPause)`: when ready, mark stopped and pause or stop the thread. */
  function StopStep(s: Service, shouldPause: bool): Service {
    if !s.ready then s
    else s.(stopped := true, worker := OnThread(s.worker, if shouldPause then PauseThread(true) else StopThread))
  }

  /** `pause()` and `resume()`: when ready, forwarded to `setPause`. */
  function PauseStep(s: Service, p: bool): Service {
    if !s.ready then s else s.(worker := OnThread(s.worker, PauseThread(p)))
  }

  /** `destroy()`: when ready, `stop(false)`, `shutdown()` and no longer ready. */
  function DestroyStep(s: Service): Service {
    if !s.ready then s
    else
      var t := StopStep(s, false);
      t.(worker := OnThread(t.worker, StopThread), ready := false)
  }

  /** `restart(time, grammar)`: unless not ready or stopped, not running, and a delayed `start` is posted. */
  function RestartStep(s: Service): Service {
    if !s.ready || s.stopped then s
    else s.(isRunning := false, pendingStarts := s.pendingStarts + 1)
  }

  /** `runOnBuffer(cb)` when there is a buffered service. */
  function DeferStep(s: Service, cb: Callback): Service {
    s.(worker := OnThread(s.worker, Enqueue(cb)))
  }

  /** `stopSearch()`: phoneme mode at once; the engine cleanup waits for the thread. */
  function StopSearchStep(s: Service): Service {
    DeferStep(s.(wordMode := false), StopSearchCleanup)
  }

  /** `onError(ex)`: the error, if any, is posted; the service is no longer running in any case. */
  function ErrorStep(s: Service, ex: Option<string>): (r: Service)
    ensures !r.isRunning
  {
    s.(posts := s.posts + (if ex.Some? then [SpeechError(ex.value)] else []), isRunning := false)
  }

  /**
   * A successful `start` leaves a thread that runs and is not paused.  It has
   * the service as its callback unless the old thread had left its loop: then
   * `setPause(false)` replaces the thread `startListening` just attached to by
   * a new one without a callback.
   */
  lemma StartRuns(s: Service)
    ensures StartStep(s).0 <==> s.ready
    ensures s.ready ==> var t := StartStep(s).1;
      t.isRunning && !t.stopped && t.reports == s.reports + [true] &&
      (t.worker.Some? ==> t.worker.value.hasThread && t.worker.value.running && !t.worker.value.paused) &&
      (t.worker.Some? ==> (t.worker.value.attached <==> !(s.worker.value.hasThread && !s.worker.value.running)))
  {
  }

  /** Once stopped, `restart` does nothing: no delayed `start` is posted. */
  lemma RestartAfterStopIsNoOp(s: Service, shouldPause: bool)
    ensures RestartStep(StopStep(s, shouldPause)) == StopStep(s, shouldPause)
  {
  }

  /**
   * After `destroy` the service has no thread and `start` is refused; work
   * queued before is discarded only when there was a thread to stop.
   */
  lemma DestroyEnds(s: Service)
    requires s.ready
    ensures var t := DestroyStep(s);
      !t.ready && t.stopped && !StartStep(t).0 &&
      (t.worker.Some? ==> !t.worker.value.hasThread) &&
      (t.worker.Some? ==> t.worker.value.queue == if s.worker.value.hasThread then [] else s.worker.value.queue)
  {
  }

  /** `pause()` then `resume()` on a running thread only clears the pause flag. */
  lemma PauseResume(s: Service)
    requires s.ready && s.worker.Some? && s.worker.value.hasThread && s.worker.value.running
    ensures PauseStep(PauseStep(s, true), false) == s.(worker := Some(s.worker.value.(paused := false)))
  {
  }

  /**
   * `stopSearch` on a running thread: word mode ends at once, and at the next
   * quantum every queued callback runs in order, the cleanup last, leaving
   * the thread unpaused.
   */
  lemma {:induction false} StopSearchRunsAtNextQuantum(s: Service)
    requires s.worker.Some? && s.worker.value.hasThread && s.worker.value.running
    ensures var t := StopSearchStep(s);
      !t.wordMode && t.worker.Some? &&
      Ran(t.worker.value) == s.worker.value.queue + [StopSearchCleanup] &&
      !Drained(t.worker.value).paused && Drained(t.worker.value).queue == []
  {
    var w := StopSearchStep(s).worker.value;
    DrainRunsAll(w);
    assert StopSearchCleanup in w.queue by {
      assert w.queue[|w.queue| - 1] == StopSearchCleanup;
    }
  }

  /** `abs(data[i].toInt())` of a 16-bit sample. */
  function Abs(x: int): nat {
    if x < 0 then -x else x
  }

  /** The largest magnitude among `samples`, 0 for none. */
  function MaxAbs(samples: seq<Short>): (m: nat)
    decreases |samples|
  {
    if samples == [] then 0
    else
      var prev := MaxAbs(samples[..|samples| - 1]);
      var a := Abs(samples[|samples| - 1]);
      if a > prev then a else prev
  }

  /** `MaxAbs` bounds every magnitude and is one of them (or 0 for none), so it is at most 32768. */
  lemma {:induction false} MaxAbsIsMax(samples: seq<Short>)
    ensures forall i :: 0 <= i < |samples| ==> Abs(samples[i]) <= MaxAbs(samples)
    ensures samples == [] ==> MaxAbs(samples) == 0
    ensures samples != [] ==> exists i :: 0 <= i < |samples| && MaxAbs(samples) == Abs(samples[i])
    ensures MaxAbs(samples) <= 32768
    decreases |samples|
  {
    if samples != [] {
      var n := |samples| - 1;
      var prev := samples[..n];
      MaxAbsIsMax(prev);
      forall i | 0 <= i < n
        ensures Abs(samples[i]) <= MaxAbs(samples)
      {
        assert samples[i] == prev[i];
      }
      if prev != [] && MaxAbs(samples) == MaxAbs(prev) {
        var k :| 0 <= k < |prev| && MaxAbs(prev) == Abs(prev[k]);
        assert samples[k] == prev[k];
      }
    }
  }

  /** The full-scale value the peak is divided by. */
  const MaxAmplitude: real := 32767.0

  /**
   * The volume percentage of a peak, `(peak / 32767.0) * 100` coerced into
   * [0, 100], in exact arithmetic.
   */
  function VolumeLevel(peak: nat): (r: real)
    ensures 0.0 <= r <= 100.0
  {
    var p := (peak as real / MaxAmplitude) * 100.0;
    if p > 100.0 then 100.0 else p
  }

  /** The level is monotone in the peak and saturates exactly at full scale. */
  lemma VolumeLevelShape(a: nat, b: nat)
    ensures a <= b ==> VolumeLevel(a) <= VolumeLevel(b)
    ensures VolumeLevel(a) == 100.0 <==> a >= 32767
    ensures VolumeLevel(a) == 0.0 <==> a == 0
  {
  }

  /**
   * The peak loop of `onData(data, readSize)`: the largest magnitude among the
   * first `readSize` samples (none when `readSize <= 0`), or `None` when
   * `readSize` runs past the buffer and the indexing fails.
   */
  method Peak(data: seq<Short>, readSize: int) returns (peak: Option<nat>)
    ensures readSize > |data| <==> peak.None?
    ensures readSize <= 0 ==> peak == Some(0)
    ensures 0 <= readSize <= |data| ==> peak == Some(MaxAbs(data[..readSize]))
  {
    var maxAmplitudeSample: nat := 0;
    var i := 0;
    while i < readSize
      invariant 0 <= i <= (if readSize < 0 then 0 else readSize)
      invariant i <= |data|
      invariant maxAmplitudeSample == MaxAbs(data[..i])
    {
      if i >= |data| {
        return None;
      }
      assert data[..i + 1][..i] == data[..i];
      var sample := Abs(data[i]);
      if sample > maxAmplitudeSample {
        maxAmplitudeSample := sample;
      }
      i := i + 1;
    }
    if readSize > |data| {
      return None;
    }
    return Some(maxAmplitudeSample);
  }

  /** The unsmoothed level `onData` computes: in [0, 100], 100 exactly for a full-scale sample. */
  method OnDataLevel(data: seq<Short>, readSize: int) returns (level: Option<real>)
    ensures readSize > |data| <==> level.None?
    ensures 0 <= readSize <= |data| ==> level == Some(VolumeLevel(MaxAbs(data[..readSize])))
    ensures readSize < 0 ==> level == Some(0.0)
  {
    var peak := Peak(data, readSize);
    if peak.None? {
      return None;
    }
    return Some(VolumeLevel(peak.value));
  }

  class SpeechServiceImpl {
    var ready: bool
    var isRunning: bool
    var stopped: bool
    var wordMode: bool
    var kaldi: RecognitionService?
    var phonemeRecognizer: Sherpa?
    var wordRecognizer: Sherpa?
    /** The values passed to `recognizerRunningCallback`. */
    var reports: seq<bool>
    /** The `start` calls `restart` has posted with a delay and the handler has not run yet. */
    var pendingStarts: nat
    var posts: seq<Post>

    function Snapshot(): Service
      reads this, kaldi
    {
      Service(ready, isRunning, stopped, wordMode, if kaldi == null then None else Some(kaldi.WorkerOf()),
              reports, pendingStarts, posts)
    }

    /** The buffered service's other state, which the lifecycle calls leave alone. */
    twostate predicate SessionKept()
      reads this, kaldi
    {
      kaldi == old(kaldi) && (kaldi != null ==> unchanged(kaldi`counters, kaldi`events, kaldi`transcripts))
    }

    constructor()
      ensures Snapshot() == Service(false, false, true, false, None, [], 0, [])
      ensures phonemeRecognizer == null && wordRecognizer == null
    {
      ready := false;
      isRunning := false;
      stopped := true;
      wordMode := false;
      kaldi := null;
      phonemeRecognizer := null;
      wordRecognizer := null;
      reports := [];
      pendingStarts := 0;
      posts := [];
    }

    /**
     * `speechRecognizer()`: the cached recognizer of the current mode, created
     * (with the engine behaviour given) on the first call in that mode only;
     * a new adapter is not loaded.
     */
    method SpeechRecognizer(asrScript: seq<seq<Hypothesis>>, vadScript: seq<VadReaction>) returns (r: Sherpa)
      modifies `phonemeRecognizer, `wordRecognizer
      ensures wordMode ==> wordRecognizer == r && phonemeRecognizer == old(phonemeRecognizer)
      ensures !wordMode ==> phonemeRecognizer == r && wordRecognizer == old(wordRecognizer)
      ensures var cached := if wordMode then old(wordRecognizer) else old(phonemeRecognizer);
        (cached != null ==> r == cached) &&
        (cached == null ==>
           fresh(r) && fresh(r.asr) && fresh(r.vad) && !r.loaded &&
           r.asr.State() == AsrState(false, [], NoHypothesis, "", asrScript, []) &&
           r.vad.State() == VadState(false, 0, vadScript, []))
    {
      if wordMode {
        if wordRecognizer == null {
          wordRecognizer := new Sherpa(asrScript, vadScript);
        }
        r := wordRecognizer;
      } else {
        if phonemeRecognizer == null {
          phonemeRecognizer := new Sherpa(asrScript, vadScript);
        }
        r := phonemeRecognizer;
      }
    }

    /**
     * `initSpeech(onResult)` and `initModel()`: the recognizer of the current
     * mode is created if needed and loaded, a new buffered service (its
     * recognizer thread started, unpaused, with no callback and an empty
     * queue) replaces any old one, and the service is ready.  The other mode's
     * recognizer, if any, stays as it was.
     */
    method InitSpeech(asrScript: seq<seq<Hypothesis>>, vadScript: seq<VadReaction>)
      modifies this, phonemeRecognizer, wordRecognizer
      ensures Snapshot() == old(Snapshot()).(ready := true, worker := Some(Worker(true, true, false, false, "", [])))
      ensures fresh(kaldi) && kaldi.counters == Initial && kaldi.events == [] && kaldi.transcripts == []
      ensures var r := if wordMode then wordRecognizer else phonemeRecognizer;
        r != null && r.loaded
      ensures wordMode ==> phonemeRecognizer == old(phonemeRecognizer)
      ensures !wordMode ==> wordRecognizer == old(wordRecognizer)
    {
      ready := false;
      var r := SpeechRecognizer(asrScript, vadScript);
      r.InitModel();
      kaldi := new RecognitionService(ModelSampleRate);
      ready := true;
    }

    /** `start(grammar)`: `ok` is false where the source throws. */
    method Start() returns (ok: bool)
      modifies this, kaldi
      ensures (ok, Snapshot()) == StartStep(old(Snapshot()))
      ensures SessionKept()
      ensures unchanged(`phonemeRecognizer, `wordRecognizer)
    {
      if !ready {
        return false;
      }
      if kaldi != null {
        kaldi.StartListening(true);
        kaldi.SetPause(false);
      }
      isRunning := true;
      reports := reports + [true];
      stopped := false;
      ok := true;
    }

    method Stop(shouldPause: bool)
      modifies `stopped, kaldi
      ensures Snapshot() == StopStep(old(Snapshot()), shouldPause)
      ensures SessionKept()
    {
      if !ready {
        return;
      }
      stopped := true;
      if kaldi != null {
        if shouldPause {
          kaldi.SetPause(true);
        } else {
          var _ := kaldi.Stop();
        }
      }
    }

    method Pause()
      modifies kaldi
      ensures Snapshot() == PauseStep(old(Snapshot()), true)
      ensures SessionKept()
    {
      if ready && kaldi != null {
        kaldi.SetPause(true);
      }
    }

    method Resume()
      modifies kaldi
      ensures Snapshot() == PauseStep(old(Snapshot()), false)
      ensures SessionKept()
    {
      if ready && kaldi != null {
        kaldi.SetPause(false);
      }
    }

    /** `destroyRecognizer()`, i.e. `startListening(null)`: a thread is created when there is none, and it has no callback. */
    method DestroyRecognizer()
      modifies kaldi
      ensures Snapshot() == old(Snapshot()).(worker := OnThread(old(Snapshot()).worker, Listen(false)))
      ensures kaldi != null ==> kaldi.hasThread && !kaldi.attached
      ensures SessionKept()
    {
      if kaldi != null {
        kaldi.StartListening(false);
      }
    }

    /** `destroy()`; the recorder's `release()` belongs to the recorder model. */
    method Destroy()
      modifies `stopped, `ready, kaldi
      ensures Snapshot() == DestroyStep(old(Snapshot()))
      ensures SessionKept()
    {
      if !ready {
        return;
      }
      Stop(false);
      if kaldi != null {
        kaldi.Shutdown();
      }
      ready := false;
    }

    method Restart()
      modifies `isRunning, `pendingStarts
      ensures Snapshot() == RestartStep(old(Snapshot()))
    {
      if !ready || stopped {
        return;
      }
      isRunning := false;
      pendingStarts := pendingStarts + 1;
    }

    /** The main handler runs one `start` that `restart` posted; `ok` is false where it throws. */
    method RunDelayedStart() returns (ok: bool)
      requires pendingStarts > 0
      modifies this, kaldi
      ensures (ok, Snapshot()) == StartStep(old(Snapshot()).(pendingStarts := old(pendingStarts) - 1))
      ensures SessionKept()
    {
      pendingStarts := pendingStarts - 1;
      ok := Start();
    }

    /** `reset()`: a recreating engine reset, deferred to the recognizer thread. */
    method Reset()
      modifies kaldi
      ensures Snapshot() == DeferStep(old(Snapshot()), ResetSession)
      ensures SessionKept()
    {
      if kaldi != null {
        kaldi.RunOnBuffer(ResetSession);
      }
    }

    /** `stopSearch()`: phoneme mode at once, the engine cleanup deferred to the recognizer thread. */
    method StopSearch()
      modifies `wordMode, kaldi
      ensures Snapshot() == StopSearchStep(old(Snapshot()))
      ensures SessionKept()
    {
      wordMode := false;
      if kaldi != null {
        kaldi.RunOnBuffer(StopSearchCleanup);
      }
    }

    /**
     * `setContextBiasing(hotWords)`: nothing for `null`; otherwise a reset with
     * the hot words, deferred to the recognizer thread when the buffered
     * service exists, and run at once on the current mode's recognizer (the
     * cached one, or a new one with the engine behaviour given) when not.
     * There is no buffered service before `initModel`, so that recognizer is
     * then not loaded and `createStream` throws: `thrown`.
     */
    method SetContextBiasing(hotWords: Option<string>, asrScript: seq<seq<Hypothesis>>, vadScript: seq<VadReaction>) returns (thrown: bool)
      modifies kaldi, `phonemeRecognizer, `wordRecognizer,
        if wordMode && wordRecognizer != null then {wordRecognizer.asr as object, wordRecognizer.vad}
        else if !wordMode && phonemeRecognizer != null then {phonemeRecognizer.asr as object, phonemeRecognizer.vad}
        else {}
      ensures SessionKept()
      ensures hotWords.None? || old(kaldi) != null ==> unchanged(`phonemeRecognizer, `wordRecognizer) && !thrown
      ensures hotWords.None? ==> Snapshot() == old(Snapshot())
      ensures hotWords.Some? && old(kaldi) != null ==> Snapshot() == DeferStep(old(Snapshot()), ContextBiasing(hotWords.value))
      ensures hotWords.Some? && old(kaldi) == null ==> Snapshot() == old(Snapshot())
      ensures hotWords.Some? && old(kaldi) == null ==>
        var r := if wordMode then wordRecognizer else phonemeRecognizer;
        r != null && (thrown <==> !r.loaded) &&
        (fresh(r) ==> thrown && r.asr.State() == AsrState(false, [], NoHypothesis, "", asrScript, []) &&
                      r.vad.State() == VadState(false, 0, vadScript, [])) &&
        (!fresh(r) && thrown ==> r.asr.State() == old(r.asr.State()) && r.vad.State() == old(r.vad.State())) &&
        (!thrown ==> r.asr.State() == CallbackAsr(ContextBiasing(hotWords.value), old(r.asr.State())) &&
                     r.vad.State() == VadResetState(old(r.vad.State())))
    {
      thrown := false;
      if hotWords.None? {
        return;
      }
      if kaldi != null {
        kaldi.RunOnBuffer(ContextBiasing(hotWords.value));
      } else {
        var r := SpeechRecognizer(asrScript, vadScript);
        if !r.loaded {
          return true;
        }
        RunOnEngines(ContextBiasing(hotWords.value), r);
      }
    }

    /** `onResult(...)` of the data handler: a non-null result is posted to the main thread. */
    method OnResult(result: Option<string>, wasEndpoint: bool, resetEndPos: bool, isVoiceActive: bool, isNoSpeech: bool)
      modifies `posts
      ensures posts == old(posts) + if result.None? then []
        else [SpeechResult(Event(result.value, wasEndpoint, resetEndPos, isVoiceActive, Some(isNoSpeech)))]
    {
      if result.Some? {
        posts := posts + [SpeechResult(Event(result.value, wasEndpoint, resetEndPos, isVoiceActive, Some(isNoSpeech)))];
      }
    }

    /** `onError(ex)` of the data handler. */
    method OnError(ex: Option<string>)
      modifies `posts, `isRunning
      ensures Snapshot() == ErrorStep(old(Snapshot()), ex)
      ensures !isRunning
    {
      if ex.Some? {
        posts := posts + [SpeechError(ex.value)];
      }
      isRunning := false;
    }
  }
}

/**
 * The VAD-gated endpoint state machine that both platforms run once per audio
 * quantum (`BufferedRecognitionService.recognize` on Android, about 36 ms of
 * 44.1 kHz microphone audio; `SpeechController.recognize` on iOS, 100 ms).
 *
 * Two counters drive it: `vadPatienceCounter` keeps the recognizer decoding for
 * a few quanta after the detector last heard speech, and
 * `vadResetPatienceCounter` counts the trailing silence down to an endpoint
 * (values >= 0) or, with no speech at all, counts down to a silent reset
 * (values < 0).  The two copies differ only in the details the `Platform`
 * switch selects.
 */
module Endpointing {
  import opened Common
  import opened Chunking
  import opened Engine

  /** `VAD_PATIENCE`, `vadRule1ResetPatience`, `vadRule2ResetPatience`. */
  datatype Config = Config(vadPatience: nat, rule1: nat, rule2: nat)

  predicate ValidConfig(cfg: Config) {
    cfg.rule1 >= 1
  }

  /** The values in `AudioConfig.kt` and `SpeechController.swift`. */
  const Default := Config(6, 6, 6)

  datatype Counters = Counters(patience: int, reset: int)

  /** `vadPatienceCounter = 0`, `vadResetPatienceCounter = -1`. */
  const Initial := Counters(0, -1)

  /** Which branch a quantum takes. */
  datatype Branch =
    | Speaking     // speech heard, or still within the patience window: decode
    | Trailing     // silence after speech, counting down
    | Endpoint     // the trailing count reached 0: final result, reset
    | Idle         // no speech since the last reset: empty result
    | SilentReset  // long silence: flush and reset without a result

  /** Speech re-arms both counters before the branch is chosen. */
  function Armed(cfg: Config, c: Counters, hasSpeech: bool): Counters {
    if hasSpeech then Counters(cfg.vadPatience, cfg.rule2) else c
  }

  function Classify(cfg: Config, c: Counters, hasSpeech: bool): Branch {
    var a := Armed(cfg, c, hasSpeech);
    if hasSpeech || a.patience > 0 then Speaking
    else if a.reset >= 0 then (if a.reset == 0 then Endpoint else Trailing)
    else if a.reset == -(cfg.rule1 as int) then SilentReset
    else Idle
  }

  /** The counters after one quantum with the given verdict. */
  function Next(cfg: Config, c: Counters, hasSpeech: bool): Counters {
    var a := Armed(cfg, c, hasSpeech);
    match Classify(cfg, c, hasSpeech)
    case Speaking => if hasSpeech then a else a.(patience := a.patience - 1)
    case Trailing => a.(reset := a.reset - 1)
    case Endpoint => a.(reset := a.reset - 1)
    case SilentReset => a.(reset := -1)
    case Idle => a.(reset := a.reset - 1)
  }

  /** The ranges both counters keep, and the fact that patience is only left while the reset count is full. */
  predicate Valid(cfg: Config, c: Counters) {
    0 <= c.patience <= cfg.vadPatience &&
    -(cfg.rule1 as int) <= c.reset <= cfg.rule2 &&
    (c.patience > 0 ==> c.reset == cfg.rule2)
  }

  lemma InitialValid(cfg: Config)
    requires ValidConfig(cfg)
    ensures Valid(cfg, Initial)
  {
  }

  /** One quantum keeps both counters in range, whatever the verdict. */
  lemma NextValid(cfg: Config, c: Counters, hasSpeech: bool)
    requires ValidConfig(cfg) && Valid(cfg, c)
    ensures Valid(cfg, Next(cfg, c, hasSpeech))
  {
  }

  /** The counters after a run of quanta with the given verdicts, in order. */
  function Run(cfg: Config, c: Counters, verdicts: seq<bool>): Counters
    decreases |verdicts|
  {
    if verdicts == [] then c
    else Next(cfg, Run(cfg, c, verdicts[..|verdicts| - 1]), verdicts[|verdicts| - 1])
  }

  /** Any run of quanta keeps both counters in range. */
  lemma {:induction false} RunValid(cfg: Config, c: Counters, verdicts: seq<bool>)
    requires ValidConfig(cfg) && Valid(cfg, c)
    ensures Valid(cfg, Run(cfg, c, verdicts))
    decreases |verdicts|
  {
    if verdicts != [] {
      RunValid(cfg, c, verdicts[..|verdicts| - 1]);
      NextValid(cfg, Run(cfg, c, verdicts[..|verdicts| - 1]), verdicts[|verdicts| - 1]);
    }
  }

  function Silence(n: nat): (r: seq<bool>)
    ensures |r| == n && forall i :: 0 <= i < n ==> !r[i]
  {
    seq(n, _ => false)
  }

  lemma SilenceStep(cfg: Config, c: Counters, m: nat)
    ensures Run(cfg, c, Silence(m + 1)) == Next(cfg, Run(cfg, c, Silence(m)), false)
  {
    assert Silence(m + 1)[..m] == Silence(m);
  }

  /** Silent quanta compose: a silent run split in two. */
  lemma {:induction false} SilenceSplit(cfg: Config, c: Counters, a: nat, b: nat)
    ensures Run(cfg, c, Silence(a + b)) == Run(cfg, Run(cfg, c, Silence(a)), Silence(b))
    decreases b
  {
    if b > 0 {
      SilenceSplit(cfg, c, a, b - 1);
      SilenceStep(cfg, c, a + b - 1);
      SilenceStep(cfg, Run(cfg, c, Silence(a)), b - 1);
    }
  }

  /**
   * The counters `m` silent quanta after a quantum in which speech was heard,
   * up to the endpoint: patience runs down first, then the trailing count.
   */
  function AfterSpeech(cfg: Config, m: nat): Counters
    requires m <= cfg.vadPatience + cfg.rule2 + 1
  {
    var p := cfg.vadPatience;
    if m <= p then Counters(p - m, cfg.rule2) else Counters(0, cfg.rule2 - (m - p))
  }

  lemma {:induction false} AfterSpeechRun(cfg: Config, c: Counters, m: nat)
    requires m <= cfg.vadPatience + cfg.rule2 + 1
    ensures Run(cfg, Next(cfg, c, true), Silence(m)) == AfterSpeech(cfg, m)
    decreases m
  {
    if m > 0 {
      AfterSpeechRun(cfg, c, m - 1);
      SilenceStep(cfg, Next(cfg, c, true), m - 1);
    }
  }

  /** An endpoint leaves the reset count at -1. */
  lemma EndpointDisarms(cfg: Config, c: Counters, hasSpeech: bool)
    requires Classify(cfg, c, hasSpeech) == Endpoint
    ensures Next(cfg, c, hasSpeech).reset == -1
  {
  }

  /**
   * Once the reset count is negative, only speech raises it again: silent
   * quanta never end in a second endpoint and never enter the trailing branch.
   */
  lemma {:induction false} NoEndpointWithoutSpeech(cfg: Config, c: Counters, m: nat)
    requires ValidConfig(cfg) && Valid(cfg, c) && c.reset < 0
    ensures Run(cfg, c, Silence(m)).reset < 0
    ensures Classify(cfg, Run(cfg, c, Silence(m)), false) in {Idle, SilentReset}
    decreases m
  {
    if m > 0 {
      NoEndpointWithoutSpeech(cfg, c, m - 1);
      SilenceStep(cfg, c, m - 1);
      RunValid(cfg, c, Silence(m - 1));
    }
    RunValid(cfg, c, Silence(m));
  }

  /**
   * After a speech quantum, the silent quantum that ends in an endpoint is
   * exactly the (VAD_PATIENCE + vadRule2ResetPatience + 1)-th one: the k-th
   * silent quantum (k >= 1) takes the `Endpoint` branch if and only if k equals
   * it.  Before it the recognizer keeps decoding for VAD_PATIENCE quanta and
   * then counts silently; after it every quantum is idle or a silent reset.
   */
  lemma EndpointAfterSpeech(cfg: Config, c: Counters, k: nat)
    requires ValidConfig(cfg) && k >= 1
    ensures var b := Classify(cfg, Run(cfg, Next(cfg, c, true), Silence(k - 1)), false);
      (b == Endpoint <==> k == cfg.vadPatience + cfg.rule2 + 1) &&
      (k <= cfg.vadPatience ==> b == Speaking) &&
      (cfg.vadPatience < k <= cfg.vadPatience + cfg.rule2 ==> b == Trailing) &&
      (k > cfg.vadPatience + cfg.rule2 + 1 ==> b == Idle || b == SilentReset)
  {
    var e := cfg.vadPatience + cfg.rule2 + 1;
    var c1 := Next(cfg, c, true);
    if k <= e {
      AfterSpeechRun(cfg, c, k - 1);
    } else {
      AfterSpeechRun(cfg, c, e);
      SilenceSplit(cfg, c1, e, k - 1 - e);
      NoEndpointWithoutSpeech(cfg, Run(cfg, c1, Silence(e)), k - 1 - e);
    }
  }

  /** One silent quantum on an idle count: down by one, or back to -1 from -rule1. */
  lemma IdleStep(cfg: Config, m: nat, j: nat)
    requires ValidConfig(cfg) && j < cfg.rule1
    requires Run(cfg, Initial, Silence(m)) == Counters(0, -1 - j as int)
    ensures Run(cfg, Initial, Silence(m + 1)) ==
      if j + 1 == cfg.rule1 then Counters(0, -1) else Counters(0, -2 - j as int)
  {
    SilenceStep(cfg, Initial, m);
  }

  /** The counters `q * rule1 + i` silent quanta after start-up (i < rule1): the idle count is back at -1 - i. */
  lemma {:induction false} IdleCycle(cfg: Config, q: nat, i: nat)
    requires ValidConfig(cfg) && i < cfg.rule1
    ensures Run(cfg, Initial, Silence(q * cfg.rule1 + i)) == Counters(0, -1 - i as int)
    decreases q, i
  {
    var n := cfg.rule1;
    if i > 0 {
      IdleCycle(cfg, q, i - 1);
      IdleStep(cfg, q * n + (i - 1), i - 1);
    } else if q > 0 {
      IdleCycle(cfg, q - 1, n - 1);
      var m0: nat := (q - 1) * n + (n - 1);
      assert m0 + 1 == q * n by {
        assert (q - 1) * n == q * n - n;
      }
      IdleStep(cfg, m0, n - 1);
    }
  }

  /**
   * With no speech since start-up, silent quantum number q * rule1 + i + 1
   * (i < rule1) is a silent reset exactly when i = rule1 - 1, that is, once every
   * vadRule1ResetPatience quanta; every other one is idle.
   */
  lemma SilentResetPeriod(cfg: Config, q: nat, i: nat)
    requires ValidConfig(cfg) && i < cfg.rule1
    ensures var b := Classify(cfg, Run(cfg, Initial, Silence(q * cfg.rule1 + i)), false);
      (b == SilentReset <==> i == cfg.rule1 - 1) && (b == Idle <==> i != cfg.rule1 - 1)
  {
    IdleCycle(cfg, q, i);
  }

  /** A result event: `onResult(result, wasEndpoint, resetEndPos, isVoiceActive, isNoSpeech)`, the last absent on some iOS events. */
  datatype Event = Event(
    transcript: string,
    wasEndpoint: bool,
    resetEndPos: bool,
    isVoiceActive: bool,
    isNoSpeech: Option<bool>)

  datatype Platform = Android | Ios

  /** Android always sends `isNoSpeech = false` on speech and idle events; iOS leaves the key out. */
  function QuietFlag(p: Platform): Option<bool> {
    if p == Android then Some(false) else None
  }

  /**
   * The state one quantum reads and writes: the counters, the last result
   * reported (`lastReadResult`; nil on iOS after `initSpeech`/`flushSpeech`), the
   * events sent, the strings handed to `recordTranscript` (Android only), and
   * the engines.
   */
  datatype Session = Session(
    counters: Counters,
    last: Option<string>,
    events: seq<Event>,
    transcripts: seq<string>,
    asr: AsrState,
    vad: VadState)

  function Record(p: Platform, transcripts: seq<string>, result: string): seq<string> {
    if p == Android then transcripts + [result] else transcripts
  }

  /** `result` is sent only when it differs from the last result reported. */
  function Dedup(last: Option<string>, result: string, e: Event): seq<Event> {
    if last != Some(result) then [e] else []
  }

  /** The tail padding: 0.16 s of silence at the model's sample rate. */
  function TailLength(sampleRate: nat): nat {
    sampleRate * 16 / 100
  }

  /**
   * One non-empty quantum of resampled audio, once the recognizer and the
   * detector are available: the body of `recognize` after its guards.
   */
  function Quantum(p: Platform, cfg: Config, s: Session, samples: seq<int>, wordMode: bool, windowSize: nat, sampleRate: nat): Session
    requires windowSize > 0
  {
    if samples == [] then s
    else Respond(p, cfg, s, AsrAccept(s.asr, samples), VadFeed(s.vad, Windows(samples, windowSize)), wordMode, sampleRate)
  }

  /**
   * What a branch asks of the recognizer before it reads the result: the
   * speaking branch and the silent reset decode what is ready, the endpoint
   * first feeds the tail padding (phoneme mode only), the others do nothing.
   */
  function Decoded(b: Branch, a1: AsrState, wordMode: bool, sampleRate: nat): AsrState {
    match b
    case Speaking => AsrDecodeAll(a1)
    case Endpoint => AsrDecodeAll(if wordMode then a1 else AsrAccept(a1, Zeros(TailLength(sampleRate))))
    case SilentReset => AsrDecodeAll(a1)
    case Trailing => a1
    case Idle => a1
  }

  /**
   * The branches of `recognize` once the quantum has been handed to the
   * recognizer (`a1`) and, window by window, to the detector (`v1`).  The
   * endpoint and the silent reset end by resetting the recognizer and
   * emptying the detector.
   */
  function Respond(p: Platform, cfg: Config, s: Session, a1: AsrState, v1: VadState, wordMode: bool, sampleRate: nat): Session {
    var hasSpeech := v1.speech;
    var counters := Next(cfg, s.counters, hasSpeech);
    var b := Classify(cfg, s.counters, hasSpeech);
    var a := Decoded(b, a1, wordMode, sampleRate);
    var result := AsrResult(a, wordMode);
    var asr := if b == Endpoint || b == SilentReset then AsrReset(a, "", p == Android) else a;
    var vad := if b == Endpoint || b == SilentReset then VadPopAll(v1) else v1;
    match b
    case Speaking =>
      Session(counters, Some(result),
        s.events + Dedup(s.last, result, Event(result, false, false, true, QuietFlag(p))),
        Record(p, s.transcripts, result), asr, vad)
    case Trailing =>
      s.(counters := counters, asr := asr, vad := vad)
    case Endpoint =>
      Session(counters, Some(result),
        s.events + [Event(result, true, true, false, Some(!hasSpeech))],
        Record(p, s.transcripts, result), asr, vad)
    case Idle =>
      s.(counters := counters, events := s.events + [Event("", false, false, false, QuietFlag(p))], asr := asr, vad := vad)
    case SilentReset =>
      s.(counters := counters, events := s.events + [Event("", false, false, false, QuietFlag(p))], asr := asr, vad := vad)
  }

  /** The verdict the detector gives at the end of a quantum's windows. */
  function Verdict(s: Session, samples: seq<int>, windowSize: nat): bool
    requires windowSize > 0
  {
    VadFeed(s.vad, Windows(samples, windowSize)).speech
  }

  /** The counters move exactly as `Next` says for the quantum's verdict, and an empty quantum changes nothing. */
  lemma QuantumCounters(p: Platform, cfg: Config, s: Session, samples: seq<int>, wordMode: bool, windowSize: nat, sampleRate: nat)
    requires windowSize > 0
    ensures var r := Quantum(p, cfg, s, samples, wordMode, windowSize, sampleRate);
      (samples == [] ==> r == s) &&
      (samples != [] ==> r.counters == Next(cfg, s.counters, Verdict(s, samples, windowSize)))
  {
  }

  /**
   * The events one quantum sends, branch by branch:
   * - speaking: at most one, active and not final, sent exactly when the result differs from the last one reported;
   * - trailing: none;
   * - endpoint: exactly one, final, inactive, `resetEndPos`, with `isNoSpeech` true;
   * - idle and silent reset: exactly one, empty, not final, inactive.
   */
  lemma QuantumEvents(p: Platform, cfg: Config, s: Session, samples: seq<int>, wordMode: bool, windowSize: nat, sampleRate: nat)
    requires windowSize > 0 && samples != []
    ensures var r := Quantum(p, cfg, s, samples, wordMode, windowSize, sampleRate);
      var b := Classify(cfg, s.counters, Verdict(s, samples, windowSize));
      var sent := r.events[|s.events|..];
      r.events[..|s.events|] == s.events &&
      (b == Speaking ==>
        r.last.Some? && (sent == [] <==> s.last == r.last) &&
        (sent != [] ==> sent == [Event(r.last.value, false, false, true, QuietFlag(p))])) &&
      (b == Trailing ==> sent == [] && r.last == s.last) &&
      (b == Endpoint ==> r.last.Some? && sent == [Event(r.last.value, true, true, false, Some(true))]) &&
      (b == Idle || b == SilentReset ==> sent == [Event("", false, false, false, QuietFlag(p))] && r.last == s.last)
  {
    var r := Quantum(p, cfg, s, samples, wordMode, windowSize, sampleRate);
    assert r.events[..|s.events|] == s.events;
  }

  /**
   * The endpoint's engine calls: after the quantum's own samples, the tail
   * padding is fed only in phoneme mode, then the recognizer is drained and
   * reset; the detector is popped until empty.
   */
  lemma EndpointEngineCalls(p: Platform, cfg: Config, s: Session, samples: seq<int>, wordMode: bool, windowSize: nat, sampleRate: nat)
    requires windowSize > 0 && samples != []
    requires Classify(cfg, s.counters, Verdict(s, samples, windowSize)) == Endpoint
    ensures var r := Quantum(p, cfg, s, samples, wordMode, windowSize, sampleRate);
      var tail := if wordMode then [] else [AsrCall.AcceptWaveform(Zeros(TailLength(sampleRate)))];
      (exists k: nat :: r.asr.calls == s.asr.calls + [AsrCall.AcceptWaveform(samples)] + tail + Decodes(k) + [AsrCall.Reset("", p == Android)]) &&
      r.vad.segments == 0 && !AsrReady(r.asr) && AsrResult(r.asr, wordMode) == ""
  {
    var a1 := AsrAccept(s.asr, samples);
    var a2 := if wordMode then a1 else AsrAccept(a1, Zeros(TailLength(sampleRate)));
    var k: nat := if AsrReady(a2) then |a2.pending| else 0;
    assert AsrDecodeAll(a2).calls == a2.calls + Decodes(k);
  }

  /** Whatever branch it takes, a quantum hands its samples to the recognizer before anything else it asks of it. */
  lemma QuantumAcceptsFirst(p: Platform, cfg: Config, s: Session, samples: seq<int>, wordMode: bool, windowSize: nat, sampleRate: nat)
    requires windowSize > 0 && samples != []
    ensures exists rest ::
      Quantum(p, cfg, s, samples, wordMode, windowSize, sampleRate).asr.calls == s.asr.calls + [AsrCall.AcceptWaveform(samples)] + rest
  {
    RespondExtendsLog(p, cfg, s, AsrAccept(s.asr, samples), VadFeed(s.vad, Windows(samples, windowSize)), wordMode, sampleRate);
  }

  lemma RespondExtendsLog(p: Platform, cfg: Config, s: Session, a1: AsrState, v1: VadState, wordMode: bool, sampleRate: nat)
    ensures exists rest :: Respond(p, cfg, s, a1, v1, wordMode, sampleRate).asr.calls == a1.calls + rest
  {
    var b := Classify(cfg, s.counters, v1.speech);
    var a := Decoded(b, a1, wordMode, sampleRate);
    DecodedExtendsLog(b, a1, wordMode, sampleRate);
    var rest :| a.calls == a1.calls + rest;
    if b == Endpoint || b == SilentReset {
      assert AsrReset(a, "", p == Android).calls == a1.calls + (rest + [AsrCall.Reset("", p == Android)]);
    }
  }

  lemma DecodedExtendsLog(b: Branch, a1: AsrState, wordMode: bool, sampleRate: nat)
    ensures exists rest :: Decoded(b, a1, wordMode, sampleRate).calls == a1.calls + rest
  {
    var a2 := if b == Endpoint && !wordMode then AsrAccept(a1, Zeros(TailLength(sampleRate))) else a1;
    var tail := if b == Endpoint && !wordMode then [AsrCall.AcceptWaveform(Zeros(TailLength(sampleRate)))] else [];
    assert a2.calls == a1.calls + tail;
    var k: nat := if AsrReady(a2) then |a2.pending| else 0;
    if b == Trailing || b == Idle {
      assert Decoded(b, a1, wordMode, sampleRate).calls == a1.calls + [];
    } else {
      assert Decoded(b, a1, wordMode, sampleRate) == AsrDecodeAll(a2);
      assert Decoded(b, a1, wordMode, sampleRate).calls == a1.calls + (tail + Decodes(k));
    }
  }

  /** `recognizeWithoutVAD`: every non-empty buffer is decoded and reported (deduplicated), with no counters involved. */
  function WithoutVad(p: Platform, s: Session, samples: seq<int>, wordMode: bool): Session {
    if samples == [] then s
    else
      var a := AsrDecodeAll(AsrAccept(s.asr, samples));
      var result := AsrResult(a, wordMode);
      s.(last := Some(result),
        events := s.events + Dedup(s.last, result, Event(result, false, false, true, Some(false))),
        transcripts := Record(p, s.transcripts, result), asr := a)
  }

  /** Without VAD the counters and the detector are untouched, and a repeated result is not sent again. */
  lemma WithoutVadDedup(p: Platform, s: Session, samples: seq<int>, wordMode: bool)
    requires samples != []
    ensures var r := WithoutVad(p, s, samples, wordMode);
      r.counters == s.counters && r.vad == s.vad && r.last.Some? &&
      (r.events == s.events <==> s.last == r.last) &&
      (r.events != s.events ==> r.events == s.events + [Event(r.last.value, false, false, true, Some(false))])
  {
  }
}

/**
 * The speech engines the state machines drive, kept abstract: a streaming
 * recognizer (sherpa-onnx `OnlineRecognizer` plus its stream) and a voice
 * activity detector.  Neither computes anything here.  What they do with
 * audio is fixed by a `script` given when they are created: the n-th
 * `acceptWaveform` call makes the n-th scripted list of decoder steps ready
 * (each step yields the hypothesis current after it), and the n-th VAD window
 * yields the n-th scripted verdict.  Every call is logged, so a state machine's
 * contract can say which engine calls it made and in what order.
 */
module Engine {
  import opened Common
  import opened Chunking

  /** The recognizer's current best result: word text and phoneme tokens. */
  datatype Hypothesis = Hypothesis(text: string, tokens: seq<string>)

  const NoHypothesis := Hypothesis("", [])

  /** The result string a state machine reads: the text in word mode, the tokens joined by spaces otherwise. */
  function ResultString(h: Hypothesis, wordMode: bool): string {
    if wordMode then h.text else Join(h.tokens, " ")
  }

  datatype AsrCall =
    | AcceptWaveform(samples: seq<int>)
    | Decode
    | Reset(hotwords: string, recreate: bool)
    | InputFinished

  /**
   * The recognizer seen from outside.  `hasStream` is false until the first
   * reset on Android (the adapter starts with no stream) and always true on iOS.
   */
  datatype AsrState = AsrState(
    hasStream: bool,
    pending: seq<Hypothesis>,
    hyp: Hypothesis,
    hotwords: string,
    script: seq<seq<Hypothesis>>,
    calls: seq<AsrCall>)

  function Decodes(n: nat): (r: seq<AsrCall>)
    ensures |r| == n && forall i :: 0 <= i < n ==> r[i] == Decode
  {
    seq(n, _ => Decode)
  }

  predicate AsrReady(s: AsrState) {
    s.hasStream && s.pending != []
  }

  /** `text` / `tokens` read through the adapter: empty while there is no stream. */
  function AsrResult(s: AsrState, wordMode: bool): string {
    if s.hasStream then ResultString(s.hyp, wordMode) else ""
  }

  function AsrAccept(s: AsrState, samples: seq<int>): AsrState {
    var calls := s.calls + [AcceptWaveform(samples)];
    if !s.hasStream then s.(calls := calls)
    else if s.script == [] then s.(calls := calls)
    else s.(pending := s.pending + s.script[0], script := s.script[1..], calls := calls)
  }

  function AsrDecode(s: AsrState): AsrState {
    var calls := s.calls + [Decode];
    if AsrReady(s) then s.(hyp := s.pending[0], pending := s.pending[1..], calls := calls)
    else s.(calls := calls)
  }

  /** `while (isReady()) decode()`: every ready step is decoded, the last hypothesis wins. */
  function AsrDecodeAll(s: AsrState): (r: AsrState)
    ensures !AsrReady(r)
    ensures r.hasStream == s.hasStream && r.script == s.script && r.hotwords == s.hotwords
  {
    if AsrReady(s) then
      s.(hyp := s.pending[|s.pending| - 1], pending := [], calls := s.calls + Decodes(|s.pending|))
    else s
  }

  /**
   * `reset(hotwords, recreate)`: a new stream (carrying the hotwords) when asked
   * to recreate or when there is none, otherwise the existing stream restarted.
   */
  function AsrReset(s: AsrState, hotwords: string, recreate: bool): AsrState {
    var calls := s.calls + [Reset(hotwords, recreate)];
    if recreate || !s.hasStream then
      s.(hasStream := true, pending := [], hyp := NoHypothesis, hotwords := hotwords, calls := calls)
    else
      s.(pending := [], hyp := NoHypothesis, calls := calls)
  }

  function AsrInputFinished(s: AsrState): AsrState {
    s.(calls := s.calls + [InputFinished])
  }

  lemma {:induction false} DecodeStepPreservesDecodeAll(s: AsrState)
    requires AsrReady(s)
    ensures AsrDecodeAll(AsrDecode(s)) == AsrDecodeAll(s)
  {
    var d := AsrDecode(s);
    var n := |s.pending|;
    if n > 1 {
      assert d.pending[|d.pending| - 1] == s.pending[n - 1];
      assert d.calls + Decodes(n - 1) == s.calls + Decodes(n);
    }
  }

  /** A reset leaves the recognizer with a stream, nothing to decode and an empty result. */
  lemma ResetClearsResult(s: AsrState, hotwords: string, recreate: bool, wordMode: bool)
    ensures var r := AsrReset(s, hotwords, recreate);
      r.hasStream && !AsrReady(r) && AsrResult(r, wordMode) == ""
      && (recreate ==> r.hotwords == hotwords)
      && (!recreate && s.hasStream ==> r.hotwords == s.hotwords)
  {
  }

  class Asr {
    var hasStream: bool
    var pending: seq<Hypothesis>
    var hyp: Hypothesis
    var hotwords: string
    var script: seq<seq<Hypothesis>>
    var calls: seq<AsrCall>

    function State(): AsrState
      reads this
    {
      AsrState(hasStream, pending, hyp, hotwords, script, calls)
    }

    constructor(hasStream: bool, script: seq<seq<Hypothesis>>)
      ensures State() == AsrState(hasStream, [], NoHypothesis, "", script, [])
    {
      this.hasStream := hasStream;
      this.pending := [];
      this.hyp := NoHypothesis;
      this.hotwords := "";
      this.script := script;
      this.calls := [];
    }

    predicate IsReady()
      reads this
    {
      AsrReady(State())
    }

    function Result(wordMode: bool): string
      reads this
    {
      AsrResult(State(), wordMode)
    }

    method AcceptWaveform(samples: seq<int>)
      modifies this
      ensures State() == AsrAccept(old(State()), samples)
    {
      calls := calls + [AsrCall.AcceptWaveform(samples)];
      if hasStream && script != [] {
        pending := pending + script[0];
        script := script[1..];
      }
    }

    method Decode()
      modifies this
      ensures State() == AsrDecode(old(State()))
    {
      calls := calls + [AsrCall.Decode];
      if hasStream && pending != [] {
        hyp := pending[0];
        pending := pending[1..];
      }
    }

    method Reset(hotwords: string, recreate: bool)
      modifies this
      ensures State() == AsrReset(old(State()), hotwords, recreate)
    {
      calls := calls + [AsrCall.Reset(hotwords, recreate)];
      if recreate || !hasStream {
        hasStream := true;
        this.hotwords := hotwords;
      }
      pending := [];
      hyp := NoHypothesis;
    }

    method InputFinished()
      modifies this
      ensures State() == AsrInputFinished(old(State()))
    {
      calls := calls + [AsrCall.InputFinished];
    }
  }

  /** The `while (recognizer.isReady()) recognizer.decode()` loop. */
  method DecodeWhileReady(asr: Asr)
    modifies asr
    ensures asr.State() == AsrDecodeAll(old(asr.State()))
  {
    while asr.IsReady()
      invariant AsrDecodeAll(asr.State()) == AsrDecodeAll(old(asr.State()))
      decreases |asr.pending|
    {
      DecodeStepPreservesDecodeAll(asr.State());
      asr.Decode();
    }
  }

  /** What the detector does with one window: its verdict and how many speech segments it completes. */
  datatype VadReaction = VadReaction(speech: bool, segments: nat)

  datatype VadCall = VadAccept(window: seq<int>) | Pop | VadReset

  datatype VadState = VadState(
    speech: bool,
    segments: nat,
    script: seq<VadReaction>,
    calls: seq<VadCall>)

  function Pops(n: nat): (r: seq<VadCall>)
    ensures |r| == n && forall i :: 0 <= i < n ==> r[i] == Pop
  {
    seq(n, _ => Pop)
  }

  /** `vad.acceptWaveform(window)`; once the script runs out the detector hears silence. */
  function VadAcceptWindow(s: VadState, window: seq<int>): VadState {
    var reaction := if s.script == [] then VadReaction(false, 0) else s.script[0];
    var script := if s.script == [] then [] else s.script[1..];
    VadState(reaction.speech, s.segments + reaction.segments, script, s.calls + [VadAccept(window)])
  }

  /** The detector after the given windows, fed in order. */
  function VadFeed(s: VadState, windows: seq<seq<int>>): VadState
    decreases |windows|
  {
    if windows == [] then s else VadFeed(VadAcceptWindow(s, windows[0]), windows[1..])
  }

  function VadPop(s: VadState): VadState {
    s.(segments := if s.segments > 0 then s.segments - 1 else 0, calls := s.calls + [Pop])
  }

  /** `while (!vad.empty()) vad.pop()`: one pop per queued segment. */
  function VadPopAll(s: VadState): (r: VadState)
    ensures r.segments == 0 && r.speech == s.speech && r.script == s.script
  {
    s.(segments := 0, calls := s.calls + Pops(s.segments))
  }

  function VadResetState(s: VadState): VadState {
    s.(speech := false, segments := 0, calls := s.calls + [VadReset])
  }

  /** Feeding windows logs exactly those windows, in order, and leaves the last scripted verdict. */
  lemma {:induction false} VadFeedLog(s: VadState, windows: seq<seq<int>>)
    ensures |VadFeed(s, windows).calls| == |s.calls| + |windows|
    ensures VadFeed(s, windows).calls[..|s.calls|] == s.calls
    ensures forall i :: 0 <= i < |windows| ==> VadFeed(s, windows).calls[|s.calls| + i] == VadAccept(windows[i])
    ensures VadFeed(s, windows).segments >= s.segments
    decreases |windows|
  {
    if windows != [] {
      var t := VadAcceptWindow(s, windows[0]);
      VadFeedLog(t, windows[1..]);
      var r := VadFeed(s, windows);
      assert r == VadFeed(t, windows[1..]);
      assert r.calls[..|s.calls|] == t.calls[..|t.calls|][..|s.calls|];
      forall i | 0 <= i < |windows|
        ensures r.calls[|s.calls| + i] == VadAccept(windows[i])
      {
        if i > 0 {
          assert r.calls[|t.calls| + (i - 1)] == VadAccept(windows[1..][i - 1]);
        }
      }
    }
  }

  lemma {:induction false} PopPreservesPopAll(s: VadState)
    requires s.segments > 0
    ensures VadPopAll(VadPop(s)) == VadPopAll(s)
  {
    assert s.calls + [Pop] + Pops(s.segments - 1) == s.calls + Pops(s.segments);
  }

  class Vad {
    var speech: bool
    var segments: nat
    var script: seq<VadReaction>
    var calls: seq<VadCall>

    function State(): VadState
      reads this
    {
      VadState(speech, segments, script, calls)
    }

    constructor(script: seq<VadReaction>)
      ensures State() == VadState(false, 0, script, [])
    {
      this.speech := false;
      this.segments := 0;
      this.script := script;
      this.calls := [];
    }

    predicate IsSpeechDetected()
      reads this
    {
      speech
    }

    predicate Empty()
      reads this
    {
      segments == 0
    }

    method AcceptWaveform(window: seq<int>)
      modifies this
      ensures State() == VadAcceptWindow(old(State()), window)
    {
      var reaction := if script == [] then VadReaction(false, 0) else script[0];
      script := if script == [] then [] else script[1..];
      speech := reaction.speech;
      segments := segments + reaction.segments;
      calls := calls + [VadAccept(window)];
    }

    method Pop()
      modifies this
      ensures State() == VadPop(old(State()))
    {
      segments := if segments > 0 then segments - 1 else 0;
      calls := calls + [VadCall.Pop];
    }

    method Reset()
      modifies this
      ensures State() == VadResetState(old(State()))
    {
      speech := false;
      segments := 0;
      calls := calls + [VadReset];
    }
  }

  /** The `while (!vad.empty()) vad.pop()` loop. */
  method PopUntilEmpty(vad: Vad)
    modifies vad
    ensures vad.State() == VadPopAll(old(vad.State()))
  {
    while !vad.Empty()
      invariant VadPopAll(vad.State()) == VadPopAll(old(vad.State()))
      decreases vad.segments
    {
      PopPreservesPopAll(vad.State());
      vad.Pop();
    }
  }

  /** The window loop: each `windowSize` slice of the samples goes to the detector, in order. */
  method FeedWindows(vad: Vad, samples: seq<int>, windowSize: nat)
    requires windowSize > 0
    modifies vad
    ensures vad.State() == VadFeed(old(vad.State()), Windows(samples, windowSize))
  {
    var offset := 0;
    while offset < |samples|
      invariant 0 <= offset <= |samples|
      invariant VadFeed(vad.State(), WindowsFrom(samples, windowSize, offset)) == VadFeed(old(vad.State()), Windows(samples, windowSize))
      decreases |samples| - offset
    {
      var end := Min(offset + windowSize, |samples|);
      ghost var rest := WindowsFrom(samples, windowSize, offset);
      assert rest[0] == samples[offset..end] && rest[1..] == WindowsFrom(samples, windowSize, end);
      vad.AcceptWaveform(samples[offset..end]);
      offset := end;
    }
  }

  /**
   * The Android adapter (`SherpaSpeechRecognizer`): one recognizer, one
   * detector, created without a stream.  Its `recognizer` and `vad` are
   * `lateinit` until `initModel` runs; `loaded` records whether it has.  The
   * scripts given here stand for the models that `initModel` loads.  Until
   * then every adapter call that reaches the recognizer or the detector
   * (`createStream` in `reset`, every `vad*` call) throws, and the stream
   * stays absent, so `acceptWaveform`, `inputFinished`, `isReady`, `text` and
   * `tokens` do nothing or answer empty.
   */
  class Sherpa {
    const asr: Asr
    const vad: Vad
    var loaded: bool

    constructor(asrScript: seq<seq<Hypothesis>>, vadScript: seq<VadReaction>)
      ensures fresh(asr) && fresh(vad) && !loaded
      ensures asr.State() == AsrState(false, [], NoHypothesis, "", asrScript, [])
      ensures vad.State() == VadState(false, 0, vadScript, [])
    {
      asr := new Asr(false, asrScript);
      vad := new Vad(vadScript);
      loaded := false;
    }

    /** `initModel(assets, modelDir, vadPath)`: the recognizer and the detector exist from now on. */
    method InitModel()
      modifies `loaded
      ensures loaded
    {
      loaded := true;
    }
  }
}

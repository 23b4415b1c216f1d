/**
 * The iOS `SpeechController`: the per-language recognizer caches, the tap that
 * hands 100 ms buffers to `recognize`, the endpoint state machine over the
 * same counters as the Android copy, and the recording export path.
 *
 * Work queued on `recognitionQueue` runs synchronously here, and the two
 * guards `recognize` checks before and inside the queue collapse into one.
 * Buffers arrive already converted to the 16 kHz model format.
 */
module IosSpeech {
  import opened Common
  import opened Chunking
  import opened Engine
  import opened Endpointing

  /** `kVadWindowSize`. */
  const VadWindowSize: nat := 512
  /** The sample rate of `kaldiFormat`, the recognizers' input format. */
  const KaldiSampleRate: nat := 16000

  /** The flags the guards of `recognize` and of the input tap look at. */
  datatype Flags = Flags(
    listen: bool,
    isPlayingSpeech: bool,
    isPluginDetached: bool,
    microphoneEnabled: bool,
    appInBackground: bool,
    resettingSpeech: bool)

  /** The guard of `recognize`, `recognizeWithoutVAD`, `setContextBiasing` and `resetSpeech`. */
  predicate Listening(f: Flags) {
    f.listen && !f.isPlayingSpeech && !f.isPluginDetached
  }

  /** The guards of the input tap, before it calls `recognize`. */
  predicate TapPasses(f: Flags) {
    f.microphoneEnabled && !f.appInBackground && !f.resettingSpeech
  }

  /**
   * What one tapped buffer does to the recognition state, once a recognizer
   * and the detector are loaded.
   */
  function TapQuantum(f: Flags, s: Session, samples: seq<int>, wordMode: bool): Session {
    if TapPasses(f) && Listening(f) then Quantum(Ios, Default, s, samples, wordMode, VadWindowSize, KaldiSampleRate)
    else s
  }

  /**
   * A buffer dropped by a guard changes nothing; one that passes is a
   * quantum of the shared state machine, which never records transcripts on
   * iOS and leaves `isNoSpeech` out of speech and idle events.
   */
  lemma TapGuards(f: Flags, s: Session, samples: seq<int>, wordMode: bool)
    requires samples != []
    ensures !(TapPasses(f) && Listening(f)) ==> TapQuantum(f, s, samples, wordMode) == s
    ensures var r := TapQuantum(f, s, samples, wordMode);
      r.transcripts == s.transcripts &&
      (forall i :: |s.events| <= i < |r.events| ==> (r.events[i].isNoSpeech.Some? <==> r.events[i].wasEndpoint))
  {
    if TapPasses(f) && Listening(f) {
      QuantumEvents(Ios, Default, s, samples, wordMode, VadWindowSize, KaldiSampleRate);
    }
  }

  /** Which cache `loadModel` adds a recognizer to: `Some(true)` the word one, `Some(false)` the phoneme one. */
  function NewSlot(wordMode: bool, language: string, wordKeys: set<string>, phonemeKeys: set<string>): (r: Option<bool>)
    ensures r == Some(true) ==> wordMode && language !in wordKeys
    ensures r == Some(false) ==> language !in phonemeKeys
    ensures r.None? <==> language in phonemeKeys && (!wordMode || language in wordKeys)
  {
    if wordMode && language !in wordKeys then Some(true)
    else if language !in phonemeKeys then Some(false)
    else None
  }

  /**
   * `recordingExportPath()`: `<appDir>/recordings/<recordingPath>/<profileId>_<millis>.m4a`,
   * or none without a profile, a recording path or an application directory.
   * Creating the directory is not modelled.
   */
  function RecordingExportPath(profileId: Option<string>, recordingPath: string, appDir: Option<string>, millis: nat): (r: Option<string>)
    ensures r.None? <==> profileId.None? || recordingPath == [] || appDir.None?
  {
    if profileId.None? || recordingPath == [] || appDir.None? then None
    else Some(appDir.value + "/recordings/" + recordingPath + "/" + profileId.value + "_" + NatToString(millis) + ".m4a")
  }

  /** The file name is the profile id and the timestamp, in the recording's directory, with the `.m4a` extension. */
  lemma ExportPathShape(profileId: string, recordingPath: string, appDir: string, millis: nat)
    requires recordingPath != []
    ensures var r := RecordingExportPath(Some(profileId), recordingPath, Some(appDir), millis);
      var dir := appDir + "/recordings/" + recordingPath + "/";
      var name := profileId + "_" + NatToString(millis) + ".m4a";
      r == Some(dir + name) && r.value[|dir|..] == name && r.value[|r.value| - 4..] == ".m4a"
  {
    var dir := appDir + "/recordings/" + recordingPath + "/";
    var name := profileId + "_" + NatToString(millis) + ".m4a";
    var r := RecordingExportPath(Some(profileId), recordingPath, Some(appDir), millis);
    assert r.value == dir + name;
  }

  /** Two exports of the same recording at different milliseconds get different paths. */
  lemma {:induction false} ExportPathInjective(profileId: string, recordingPath: string, appDir: string, m1: nat, m2: nat)
    requires recordingPath != []
    requires RecordingExportPath(Some(profileId), recordingPath, Some(appDir), m1) == RecordingExportPath(Some(profileId), recordingPath, Some(appDir), m2)
    ensures m1 == m2
  {
    var a := appDir + "/recordings/" + recordingPath + "/" + profileId + "_";
    var x := NatToString(m1);
    var y := NatToString(m2);
    assert a + x + ".m4a" == a + y + ".m4a";
    CancelAround(a, x, y, ".m4a");
    NatToStringInjective(m1, m2);
  }

  /** `subscript(safe:)`: the element when the index is in bounds, none otherwise. */
  function SafeIndex<T>(s: seq<T>, i: int): (r: Option<T>)
    ensures r.Some? <==> 0 <= i < |s|
    ensures r.Some? ==> r.value == s[i]
  {
    if 0 <= i < |s| then Some(s[i]) else None
  }

  /** The engine state of every recognizer of a cache, by language. */
  function States(rs: map<string, Asr>): (m: map<string, AsrState>)
    reads rs.Values
    ensures m.Keys == rs.Keys
  {
    map k | k in rs :: rs[k].State()
  }

  /** What `stopSearch` leaves in each word recognizer: its stream restarted and its input finished. */
  function Finished(m: map<string, AsrState>): (r: map<string, AsrState>)
    ensures r.Keys == m.Keys
    ensures forall k :: k in m ==> r[k].calls == m[k].calls + [AsrCall.Reset("", false), AsrCall.InputFinished] && !AsrReady(r[k])
  {
    map k | k in m :: AsrInputFinished(AsrReset(m[k], "", false))
  }

  /** The `forEach` of `stopSearch`: every recognizer of the cache is reset, then told its input is finished. */
  method FinishRecognizers(rs: map<string, Asr>, ghost objs: set<object>)
    requires forall k1, k2 :: k1 in rs && k2 in rs && k1 != k2 ==> rs[k1] != rs[k2]
    requires forall k :: k in rs ==> rs[k] in objs
    modifies objs
    ensures forall k :: k in rs ==> rs[k].State() == AsrInputFinished(AsrReset(old(rs[k].State()), "", false))
  {
    var keys := rs.Keys;
    while keys != {}
      invariant keys <= rs.Keys
      invariant forall k :: k in rs ==>
        rs[k].State() == if k in keys then old(rs[k].State()) else AsrInputFinished(AsrReset(old(rs[k].State()), "", false))
      decreases keys
    {
      var k :| k in keys;
      var r := rs[k];
      r.Reset("", false);
      r.InputFinished();
      keys := keys - {k};
    }
  }

  class SpeechController {
    /** `vadPatience`, `vadRule1ResetPatience`, `vadRule2ResetPatience`. */
    const cfg: Config := Default
    var wordRecognizers: map<string, Asr>
    var phonemeRecognizers: map<string, Asr>
    var vad: Vad?
    var lastReadResult: Option<string>
    var counters: Counters
    /** Results passed to `eventSink`, in order. */
    var events: seq<Event>
    var listen: bool
    var isPlayingSpeech: bool
    var isPluginDetached: bool
    var microphoneEnabled: bool
    var appInBackground: bool
    var resettingSpeech: bool
    var wordMode: bool
    var currentLanguage: string
    var profileId: Option<string>
    var recordingPath: string
    var expectedSpeech: Option<string>
    var grammar: Option<string>
    var currentTranscript: Option<string>

    /** Every cached recognizer is its own object, so resetting one leaves the others alone. */
    predicate Valid()
      reads this
    {
      forall k1, k2 :: k1 in wordRecognizers && k2 in wordRecognizers && k1 != k2 ==> wordRecognizers[k1] != wordRecognizers[k2]
    }

    function FlagsOf(): Flags
      reads this
    {
      Flags(listen, isPlayingSpeech, isPluginDetached, microphoneEnabled, appInBackground, resettingSpeech)
    }

    function SessionOf(h: Asr, v: Vad): Session
      reads this, h, v
    {
      Session(counters, lastReadResult, events, [], h.State(), v.State())
    }

    /** `getHandler()`: the recognizer of the current language in the cache of the current mode. */
    function GetHandler(): (h: Asr?)
      reads this
      ensures h != null <==> currentLanguage in (if wordMode then wordRecognizers else phonemeRecognizers)
      ensures h != null ==> h == (if wordMode then wordRecognizers else phonemeRecognizers)[currentLanguage]
    {
      var cache := if wordMode then wordRecognizers else phonemeRecognizers;
      if currentLanguage in cache then cache[currentLanguage] else null
    }

    /** The objects one buffer may change: the current recognizer and the detector. */
    function Engines(): set<object>
      reads this
    {
      (if GetHandler() == null then {} else {GetHandler() as object}) + (if vad == null then {} else {vad as object})
    }

    constructor()
      ensures Valid() && cfg == Default
      ensures wordRecognizers == map[] && phonemeRecognizers == map[] && vad == null
      ensures counters == Initial && lastReadResult == None && events == []
      ensures FlagsOf() == Flags(true, false, false, true, false, false)
      ensures !wordMode && currentLanguage == "en" && profileId == None && recordingPath == ""
    {
      wordRecognizers := map[];
      phonemeRecognizers := map[];
      vad := null;
      lastReadResult := None;
      counters := Initial;
      events := [];
      listen := true;
      isPlayingSpeech := false;
      isPluginDetached := false;
      microphoneEnabled := true;
      appInBackground := false;
      resettingSpeech := false;
      wordMode := false;
      currentLanguage := "en";
      profileId := None;
      recordingPath := "";
      expectedSpeech := None;
      grammar := None;
      currentTranscript := None;
    }

    /**
     * `loadModel(language:)`: create the detector if there is none, then at
     * most one recognizer, in the slot `NewSlot` names; no cached entry is
     * replaced.  The new engines' behaviour is given by the scripts.
     */
    method LoadModel(language: string, asrScript: seq<seq<Hypothesis>>, vadScript: seq<VadReaction>)
      requires Valid()
      modifies this
      ensures Valid()
      ensures old(vad) != null ==> vad == old(vad)
      ensures old(vad) == null ==> vad != null && fresh(vad) && vad.State() == VadState(false, 0, vadScript, [])
      ensures var slot := NewSlot(wordMode, language, old(wordRecognizers).Keys, old(phonemeRecognizers).Keys);
        (slot == Some(true) ==>
          language in wordRecognizers && fresh(wordRecognizers[language]) &&
          wordRecognizers == old(wordRecognizers)[language := wordRecognizers[language]] &&
          wordRecognizers[language].State() == AsrState(true, [], NoHypothesis, "", asrScript, [])) &&
        (slot != Some(true) ==> wordRecognizers == old(wordRecognizers)) &&
        (slot == Some(false) ==>
          language in phonemeRecognizers && fresh(phonemeRecognizers[language]) &&
          phonemeRecognizers == old(phonemeRecognizers)[language := phonemeRecognizers[language]] &&
          phonemeRecognizers[language].State() == AsrState(true, [], NoHypothesis, "", asrScript, [])) &&
        (slot != Some(false) ==> phonemeRecognizers == old(phonemeRecognizers))
      ensures language in (if wordMode then wordRecognizers else phonemeRecognizers)
      ensures unchanged(`counters, `events, `lastReadResult, `wordMode, `currentLanguage, `listen, `profileId, `recordingPath, `appInBackground)
    {
      if vad == null {
        vad := new Vad(vadScript);
      }
      if wordMode && language !in wordRecognizers {
        var r := new Asr(true, asrScript);
        wordRecognizers := wordRecognizers[language := r];
      } else if language !in phonemeRecognizers {
        var r := new Asr(true, asrScript);
        phonemeRecognizers := phonemeRecognizers[language := r];
      }
    }

    /**
     * The `initSpeech` call: forget the last result, take the language and
     * mode, and unless in the background take the profile (the second
     * argument, also used as the recording path) and load the models.
     */
    method InitSpeech(language: string, profileArg: Option<string>, wordModeArg: Option<string>,
                      asrScript: seq<seq<Hypothesis>>, vadScript: seq<VadReaction>)
      requires Valid()
      requires profileArg.Some?
      modifies this
      ensures Valid()
      ensures lastReadResult == None && currentLanguage == language && wordMode == (wordModeArg == Some("true"))
      ensures old(appInBackground) ==>
        profileId == old(profileId) && recordingPath == old(recordingPath) &&
        wordRecognizers == old(wordRecognizers) && phonemeRecognizers == old(phonemeRecognizers) && vad == old(vad)
      ensures !old(appInBackground) ==> profileId == profileArg && recordingPath == profileArg.value && GetHandler() != null && vad != null
      ensures unchanged(`counters, `events, `listen)
    {
      lastReadResult := None;
      wordMode := wordModeArg == Some("true");
      currentLanguage := language;
      if appInBackground {
        return;
      }
      profileId := profileArg;
      recordingPath := profileArg.value;
      LoadModel(language, asrScript, vadScript);
    }

    /** `flushSpeech(toRead:grammar:)`: forget the last result and listen again. */
    method FlushSpeech(toRead: string, grammar: Option<string>)
      modifies this
      ensures lastReadResult == None && listen
      ensures expectedSpeech == Some(toRead) && currentTranscript == Some(toRead) && this.grammar == grammar
      ensures unchanged(`counters, `events, `wordRecognizers, `phonemeRecognizers, `vad, `wordMode, `currentLanguage)
    {
      lastReadResult := None;
      expectedSpeech := Some(toRead);
      listen := false;
      this.grammar := grammar;
      listen := false;
      listen := true;
      currentTranscript := Some(toRead);
    }

    /** The `mute` and `unmute` calls, `startListening` and `stopListening`. */
    method SetListen(on: bool)
      modifies this
      ensures listen == on
      ensures unchanged(`counters, `events, `lastReadResult, `wordRecognizers, `phonemeRecognizers, `vad, `wordMode)
    {
      listen := on;
    }

    /**
     * `stopSearch()`: nothing when no word recognizer is cached (or the plugin
     * is detached); otherwise every word recognizer is reset and told its input
     * is finished, the detector is reset, the word cache emptied and word mode left.
     */
    method StopSearch()
      requires Valid()
      modifies this, wordRecognizers.Values, if vad == null then {} else {vad as object}
      ensures Valid()
      ensures vad == old(vad) && phonemeRecognizers == old(phonemeRecognizers)
      ensures old(wordRecognizers) == map[] || old(isPluginDetached) ==>
        wordRecognizers == old(wordRecognizers) && wordMode == old(wordMode) && (vad != null ==> vad.State() == old(vad.State()))
      ensures old(wordRecognizers) != map[] && !old(isPluginDetached) ==>
        wordRecognizers == map[] && !wordMode && !resettingSpeech &&
        (forall k :: k in old(wordRecognizers) ==>
          old(wordRecognizers)[k].State() == AsrInputFinished(AsrReset(old(wordRecognizers[k].State()), "", false))) &&
        (vad != null ==> vad.State() == VadResetState(old(vad.State())))
      ensures unchanged(`counters, `events, `lastReadResult, `listen)
    {
      if wordRecognizers == map[] || isPluginDetached {
        return;
      }
      StopWordSearch();
    }

    /** The work of `stopSearch` once there is a word recognizer to stop. */
    method StopWordSearch()
      requires Valid()
      modifies `resettingSpeech, `wordRecognizers, `wordMode, wordRecognizers.Values, if vad == null then {} else {vad as object}
      ensures wordRecognizers == map[] && !wordMode && !resettingSpeech
      ensures forall k :: k in old(wordRecognizers) ==>
        old(wordRecognizers)[k].State() == AsrInputFinished(AsrReset(old(wordRecognizers[k].State()), "", false))
      ensures vad != null ==> vad.State() == VadResetState(old(vad.State()))
    {
      var rs := wordRecognizers;
      ghost var objs: set<object> := set k | k in rs :: rs[k];
      assert this !in objs;
      assert vad == null || vad !in objs;
      resettingSpeech := true;
      FinishRecognizers(rs, objs);
      ResetVad();
      resettingSpeech := false;
      ClearWordCache();
    }

    /** The end of `stopSearch`: the word cache is emptied and word mode left. */
    method ClearWordCache()
      modifies `wordRecognizers, `wordMode
      ensures wordRecognizers == map[] && !wordMode
    {
      wordRecognizers := map[];
      wordMode := false;
    }

    /** `vadWrapper?.reset()`. */
    method ResetVad()
      modifies if vad == null then {} else {vad as object}
      ensures vad != null ==> vad.State() == VadResetState(old(vad.State()))
    {
      if vad != null {
        vad.Reset();
      }
    }

    /** `resetSpeech()`: while listening, restart the current recognizer's stream and reset the detector. */
    method ResetSpeech()
      modifies `resettingSpeech, Engines()
      ensures GetHandler() == old(GetHandler()) && vad == old(vad)
      ensures !Listening(old(FlagsOf())) ==> (GetHandler() != null ==> unchanged(GetHandler())) && (vad != null ==> unchanged(vad))
      ensures Listening(old(FlagsOf())) ==>
        (GetHandler() != null ==> GetHandler().State() == AsrReset(old(GetHandler().State()), "", false)) &&
        (vad != null ==> vad.State() == VadResetState(old(vad.State()))) && !resettingSpeech
    {
      if !(listen && !isPlayingSpeech && !isPluginDetached) {
        return;
      }
      resettingSpeech := true;
      var h := GetHandler();
      if h != null {
        h.Reset("", false);
      }
      if vad != null {
        vad.Reset();
      }
      resettingSpeech := false;
    }

    /**
     * `setContextBiasing(grammar:)`: a string argument resets the current
     * recognizer with it as hotwords (a new stream when non-empty) and resets
     * the detector; anything else, or not listening, changes nothing.
     */
    method SetContextBiasing(hotwords: Option<string>)
      modifies Engines()
      ensures GetHandler() == old(GetHandler()) && vad == old(vad)
      ensures hotwords.None? || !Listening(FlagsOf()) ==> (GetHandler() != null ==> unchanged(GetHandler())) && (vad != null ==> unchanged(vad))
      ensures hotwords.Some? && Listening(FlagsOf()) ==>
        (GetHandler() != null ==> GetHandler().State() == AsrReset(old(GetHandler().State()), hotwords.value, hotwords.value != "")) &&
        (vad != null ==> vad.State() == VadResetState(old(vad.State())))
    {
      if hotwords.None? || !(listen && !isPlayingSpeech && !isPluginDetached) {
        return;
      }
      var h := GetHandler();
      if h != null {
        h.Reset(hotwords.value, hotwords.value != "");
      }
      if vad != null {
        vad.Reset();
      }
    }

    /**
     * The input tap's block: drop the buffer with the microphone disabled, in
     * the background or while resetting; otherwise `recognize` it.
     */
    method Tap(samples: seq<int>)
      modifies `counters, `lastReadResult, `events, `resettingSpeech, Engines()
      ensures GetHandler() == old(GetHandler()) && vad == old(vad)
      ensures GetHandler() != null && vad != null ==>
        SessionOf(GetHandler(), vad) == TapQuantum(old(FlagsOf()), old(SessionOf(GetHandler(), vad)), samples, wordMode)
      ensures !(TapPasses(old(FlagsOf())) && Listening(old(FlagsOf()))) ==> unchanged(`counters, `events, `lastReadResult)
      ensures !old(resettingSpeech) ==> !resettingSpeech
    {
      if !microphoneEnabled || appInBackground {
        return;
      }
      if resettingSpeech {
        return;
      }
      Recognize(samples);
    }

    /** `recognize(buffer:)`: the guards, then one quantum of the endpoint state machine. */
    method Recognize(samples: seq<int>)
      modifies `counters, `lastReadResult, `events, `resettingSpeech, Engines()
      ensures GetHandler() == old(GetHandler()) && vad == old(vad)
      ensures GetHandler() != null && vad != null ==>
        SessionOf(GetHandler(), vad) ==
          if Listening(old(FlagsOf())) then Quantum(Ios, cfg, old(SessionOf(GetHandler(), vad)), samples, wordMode, VadWindowSize, KaldiSampleRate)
          else old(SessionOf(GetHandler(), vad))
      ensures !Listening(old(FlagsOf())) || GetHandler() == null || vad == null ==> unchanged(`counters, `events, `lastReadResult)
      ensures !old(resettingSpeech) ==> !resettingSpeech
    {
      if !(listen && !isPlayingSpeech && !isPluginDetached) {
        return;
      }
      var h := GetHandler();
      var v := vad;
      if h == null || v == null || samples == [] {
        return;
      }
      RunQuantum(h, v, samples);
    }

    /** One non-empty buffer through both engines, then the endpoint state machine. */
    method RunQuantum(h: Asr, v: Vad, samples: seq<int>)
      requires samples != []
      modifies `counters, `lastReadResult, `events, `resettingSpeech, h, v
      ensures SessionOf(h, v) == Quantum(Ios, cfg, old(SessionOf(h, v)), samples, wordMode, VadWindowSize, KaldiSampleRate)
      ensures !old(resettingSpeech) ==> !resettingSpeech
    {
      h.AcceptWaveform(samples);
      FeedWindows(v, samples, VadWindowSize);
      React(h, v);
    }

    /** The branches of `recognize` once the buffer has gone to both engines. */
    method React(h: Asr, v: Vad)
      modifies `counters, `lastReadResult, `events, `resettingSpeech, h, v
      ensures SessionOf(h, v) == Respond(Ios, cfg, old(SessionOf(h, v)), old(h.State()), old(v.State()), wordMode, KaldiSampleRate)
      ensures !old(resettingSpeech) ==> !resettingSpeech
    {
      var hasSpeech := v.IsSpeechDetected();
      ghost var c0 := counters;
      ghost var next := Next(cfg, c0, hasSpeech);
      ghost var branch := Classify(cfg, c0, hasSpeech);
      if hasSpeech {
        counters := Counters(cfg.vadPatience, cfg.rule2);
      }
      if hasSpeech || counters.patience > 0 {
        assert branch == Speaking;
        if !hasSpeech {
          counters := counters.(patience := counters.patience - 1);
        }
        DecodeAndReport(h);
      } else if counters.reset >= 0 {
        if counters.reset == 0 {
          assert branch == Endpoint;
          ReportEndpoint(h, v, hasSpeech);
        } else {
          assert branch == Trailing;
        }
        counters := counters.(reset := counters.reset - 1);
      } else {
        events := events + [Event("", false, false, false, None)];
        if counters.reset == -(cfg.rule1 as int) {
          assert branch == SilentReset;
          FlushEngines(h, v);
          counters := counters.(reset := -1);
        } else {
          assert branch == Idle;
          counters := counters.(reset := counters.reset - 1);
        }
      }
      assert counters == next;
    }

    /** Decode what is ready and report the result unless it repeats the last one. */
    method DecodeAndReport(h: Asr)
      modifies `lastReadResult, `events, h
      ensures h.State() == AsrDecodeAll(old(h.State()))
      ensures var result := AsrResult(h.State(), wordMode);
        lastReadResult == Some(result) &&
        events == old(events) + Dedup(old(lastReadResult), result, Event(result, false, false, true, None))
    {
      DecodeWhileReady(h);
      var result := h.Result(wordMode);
      if lastReadResult != Some(result) {
        lastReadResult := Some(result);
        events := events + [Event(result, false, false, true, None)];
      }
    }

    /** The silent reset: decode what is ready, empty the detector's queue, restart the stream. */
    method FlushEngines(h: Asr, v: Vad)
      modifies `resettingSpeech, h, v
      ensures h.State() == AsrReset(AsrDecodeAll(old(h.State())), "", false)
      ensures v.State() == VadPopAll(old(v.State()))
      ensures !old(resettingSpeech) ==> !resettingSpeech
    {
      DecodeWhileReady(h);
      PopUntilEmpty(v);
      resettingSpeech := true;
      h.Reset("", false);
      resettingSpeech := false;
    }

    /** The endpoint: tail padding in phoneme mode, final decode and event, then both engines are cleared. */
    method ReportEndpoint(h: Asr, v: Vad, hasSpeech: bool)
      modifies `lastReadResult, `events, `resettingSpeech, h, v
      ensures var a2 := if wordMode then old(h.State()) else AsrAccept(old(h.State()), Zeros(TailLength(KaldiSampleRate)));
        var a3 := AsrDecodeAll(a2);
        var result := AsrResult(a3, wordMode);
        h.State() == AsrReset(a3, "", false) &&
        v.State() == VadPopAll(old(v.State())) &&
        lastReadResult == Some(result) &&
        events == old(events) + [Event(result, true, true, false, Some(!hasSpeech))]
      ensures !old(resettingSpeech) ==> !resettingSpeech
    {
      if !wordMode {
        h.AcceptWaveform(Zeros(TailLength(KaldiSampleRate)));
      }
      DecodeWhileReady(h);
      var result := h.Result(wordMode);
      if lastReadResult != Some(result) {
        lastReadResult := Some(result);
      }
      events := events + [Event(result, true, true, false, Some(!hasSpeech))];
      FlushEngines(h, v);
    }

    /** `recognizeWithoutVAD(buffer:)`: decode and report (deduplicated) without endpointing. */
    method RecognizeWithoutVad(samples: seq<int>)
      modifies `lastReadResult, `events, Engines()
      ensures GetHandler() == old(GetHandler()) && vad == old(vad)
      ensures GetHandler() != null && vad != null ==>
        SessionOf(GetHandler(), vad) ==
          if Listening(old(FlagsOf())) then WithoutVad(Ios, old(SessionOf(GetHandler(), vad)), samples, wordMode)
          else old(SessionOf(GetHandler(), vad))
      ensures !Listening(old(FlagsOf())) || GetHandler() == null ==> unchanged(`counters, `events, `lastReadResult)
    {
      if !(listen && !isPlayingSpeech && !isPluginDetached) {
        return;
      }
      var h := GetHandler();
      if h == null || samples == [] {
        return;
      }
      h.AcceptWaveform(samples);
      DecodeWhileReady(h);
      var result := h.Result(wordMode);
      if lastReadResult != Some(result) {
        lastReadResult := Some(result);
        events := events + [Event(result, false, false, true, Some(false))];
      }
    }
  }
}

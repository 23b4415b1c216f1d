/**
 * The Android recording task manager: one `RecordingTask` per prompt shown to
 * the reader, each appending the microphone's PCM to `<path>.raw` and
 * collecting the recognizer's transcripts; on finalisation a task either
 * drops its recording or writes a `<path>.json` sidecar and has the raw file
 * encoded to `<path>.aac`.  The file system is a map from path to contents,
 * threaded through the operations; the recording queue and the encode queue
 * run their jobs at once, in submission order.
 */
module Recorder {
  import opened Common
  import opened Pcm

  /** What a file holds: raw PCM bytes, the JSON sidecar's two fields, or the AAC encoding of some PCM. */
  datatype FileData = PcmData(bytes: seq<Byte>) | TranscriptData(text: string, ipa: string) | AacData(source: seq<Byte>)

  type Files = map<string, FileData>

  /** The bytes of a file as the recorder reads them; only PCM files are ever read. */
  function Bytes(d: FileData): seq<Byte> {
    if d.PcmData? then d.bytes else []
  }

  function RawPath(pathName: string): string { pathName + ".raw" }
  function TranscriptPath(pathName: string): string { pathName + ".json" }
  function TargetPath(pathName: string): string { pathName + ".aac" }

  /** The three files of a task have three different names, and no raw file is ever another task's sidecar or target. */
  lemma PathsDistinct(p: string, q: string)
    ensures RawPath(p) != TargetPath(q) && RawPath(p) != TranscriptPath(q) && TranscriptPath(p) != TargetPath(q)
  {
    var r, j, t := RawPath(p), TranscriptPath(q), TargetPath(q);
    assert r[|r| - 1] == 'w';
    assert j[|j| - 1] == 'n';
    assert t[|t| - 1] == 'c';
    var j2, t2 := TranscriptPath(p), TargetPath(q);
    assert j2[|j2| - 1] == 'n';
  }

  /** Opening `FileOutputStream(file, true)` creates the file when it is missing and keeps it otherwise. */
  function Opened(files: Files, path: string): (r: Files)
    ensures path in r && r[path] == (if path in files then files[path] else PcmData([]))
    ensures forall p :: p != path ==> (p in r <==> p in files) && (p in files ==> r[p] == files[p])
  {
    if path in files then files else files[path := PcmData([])]
  }

  /**
   * `EncoderRunnable`: nothing when the input is missing; otherwise the output
   * is written as the encoding of the input, and the input is deleted.
   */
  datatype EncoderRunnable = EncoderRunnable(input: string, output: string) {
    function Run(files: Files): (r: Files)
      ensures input !in files ==> r == files
      ensures input in files && input != output ==>
        input !in r && output in r && r[output] == AacData(Bytes(files[input]))
      ensures forall p :: p != input && p != output ==> (p in r <==> p in files) && (p in files ==> r[p] == files[p])
    {
      if input in files then files[output := AacData(Bytes(files[input]))] - {input} else files
    }
  }

  /** The `transcriptJson` record. */
  datatype TranscriptJson = TranscriptJson(text: string, ipa: string)

  /** `{text: text, ipa: the non-blank transcripts joined by ","}`; `ipa` is blank exactly when every transcript is. */
  function TranscriptJsonOf(text: string, transcripts: seq<string>): (r: TranscriptJson)
    ensures r.text == text
    ensures IsBlank(r.ipa) <==> NonBlank(transcripts) == []
    ensures NonBlank(transcripts) == [] ==> r.ipa == ""
  {
    JoinNonBlank(NonBlank(transcripts), ",");
    TranscriptJson(text, Join(NonBlank(transcripts), ","))
  }

  /** No transcript is followed by the same transcript. */
  predicate NoAdjacentDuplicates(ts: seq<string>) {
    forall i :: 0 <= i < |ts| - 1 ==> ts[i] != ts[i + 1]
  }

  /**
   * What one `recordTranscript` leaves in the list: a blank string or a repeat
   * of the last entry changes nothing, anything else is appended.
   */
  function Recorded(ts: seq<string>, s: string): (r: seq<string>)
    ensures IsBlank(s) ==> r == ts
    ensures r == ts || r == ts + [s]
    ensures !IsBlank(s) ==> r != [] && r[|r| - 1] == s
    ensures NoAdjacentDuplicates(ts) ==> NoAdjacentDuplicates(r)
  {
    if IsBlank(s) || (ts != [] && ts[|ts| - 1] == s) then ts else ts + [s]
  }

  /** Recording the same transcript twice in a row is the same as recording it once. */
  lemma RecordedIdempotent(ts: seq<string>, s: string)
    ensures Recorded(Recorded(ts, s), s) == Recorded(ts, s)
  {
  }

  /** The part of a task the recorder observes: its paths' stem, its prompt, whether its raw stream is open, its transcripts. */
  datatype TaskState = TaskState(pathName: string, text: string, open: bool, transcripts: seq<string>)

  /** Whether `export` keeps a recording (sidecar plus encode) when its raw file is there. */
  predicate Keeps(t: TaskState, files: Files)
    requires RawPath(t.pathName) in files
  {
    var raw := RawPath(t.pathName);
    !IsBlank(TranscriptJsonOf(t.text, t.transcripts).ipa) &&
    (Contains(raw, "prompt") || |Bytes(files[raw])| > 7000)
  }

  /**
   * `export()` on a task and the files.  Nothing when the target exists or the
   * raw file is missing; otherwise the stream is closed and the raw file goes:
   * into a sidecar plus an AAC target when the recording is kept, nowhere when not.
   * Only the task's own three files can change.
   */
  function ExportStep(t: TaskState, files: Files): (r: (TaskState, Files))
    ensures TargetPath(t.pathName) in files || RawPath(t.pathName) !in files ==> r == (t, files)
    ensures TargetPath(t.pathName) !in files && RawPath(t.pathName) in files ==>
      r.0 == t.(open := false) && RawPath(t.pathName) !in r.1 &&
      (TargetPath(t.pathName) in r.1 <==> Keeps(t, files)) &&
      (Keeps(t, files) ==>
        r.1[TargetPath(t.pathName)] == AacData(Bytes(files[RawPath(t.pathName)])) &&
        TranscriptPath(t.pathName) in r.1 &&
        r.1[TranscriptPath(t.pathName)] == TranscriptData(t.text, TranscriptJsonOf(t.text, t.transcripts).ipa)) &&
      (!Keeps(t, files) ==> r.1 == files - {RawPath(t.pathName)})
    ensures forall p :: p != RawPath(t.pathName) && p != TranscriptPath(t.pathName) && p != TargetPath(t.pathName) ==>
      (p in r.1 <==> p in files) && (p in files ==> r.1[p] == files[p])
  {
    var raw, json, target := RawPath(t.pathName), TranscriptPath(t.pathName), TargetPath(t.pathName);
    PathsDistinct(t.pathName, t.pathName);
    if target in files || raw !in files then (t, files)
    else
      var t1 := t.(open := false);
      var data := TranscriptJsonOf(t1.text, t1.transcripts);
      if IsBlank(data.ipa) then (t1, files - {raw})
      else if Contains(raw, "prompt") || |Bytes(files[raw])| > 7000 then
        (t1, EncoderRunnable(raw, target).Run(files[json := TranscriptData(data.text, data.ipa)]))
      else (t1, files - {raw})
  }

  /** A second `export` changes nothing: the first one removed the raw file or found the target. */
  lemma ExportIdempotent(t: TaskState, files: Files)
    ensures var r := ExportStep(t, files); ExportStep(r.0, r.1) == r
  {
  }

  /** After `export`, either the raw file is gone or the target is there; a target is never removed. */
  lemma ExportFinalizes(t: TaskState, files: Files)
    ensures var r := ExportStep(t, files);
      (RawPath(t.pathName) !in r.1 || TargetPath(t.pathName) in r.1) &&
      (TargetPath(t.pathName) in files ==> TargetPath(t.pathName) in r.1)
  {
  }

  /** `cleanUp()`: close the stream and delete the raw file if present. */
  function CleanUpStep(t: TaskState, files: Files): (r: (TaskState, Files))
    ensures r.0 == t.(open := false) && RawPath(t.pathName) !in r.1
    ensures forall p :: p != RawPath(t.pathName) ==> (p in r.1 <==> p in files) && (p in files ==> r.1[p] == files[p])
  {
    (t.(open := false), files - {RawPath(t.pathName)})
  }

  /** One entry of the `flushSpeech` sweep: a complete task is cleaned up and dropped, any other exported and kept. */
  function FlushStep(t: TaskState, files: Files): (r: (bool, TaskState, Files))
    ensures r.0 <==> TargetPath(t.pathName) !in files
    ensures RawPath(t.pathName) !in r.2
    ensures forall p :: p in r.2 && p !in files ==> p == TranscriptPath(t.pathName) || p == TargetPath(t.pathName)
  {
    if TargetPath(t.pathName) in files then
      var c := CleanUpStep(t, files);
      (false, c.0, c.1)
    else
      var e := ExportStep(t, files);
      (true, e.0, e.1)
  }

  /** `export()` on every task, in the map's order. */
  function ExportAll(ts: seq<TaskState>, files: Files): (r: (seq<TaskState>, Files))
    ensures |r.0| == |ts|
    decreases |ts|
  {
    if ts == [] then ([], files)
    else
      var prev := ExportAll(ts[..|ts| - 1], files);
      var e := ExportStep(ts[|ts| - 1], prev.1);
      (prev.0 + [e.0], e.1)
  }

  /** Exporting one more task extends `ExportAll` by one step. */
  lemma ExportAllSnoc(ts: seq<TaskState>, i: nat, files: Files)
    requires i < |ts|
    ensures var prev := ExportAll(ts[..i], files);
      var e := ExportStep(ts[i], prev.1);
      ExportAll(ts[..i + 1], files) == (prev.0 + [e.0], e.1)
  {
    assert ts[..i + 1][..i] == ts[..i];
  }

  /** The `flushSpeech` sweep over every task, in the map's order: which are kept, their new states, the files. */
  function FlushAll(ts: seq<TaskState>, files: Files): (r: (seq<bool>, seq<TaskState>, Files))
    ensures |r.0| == |ts| && |r.1| == |ts|
    decreases |ts|
  {
    if ts == [] then ([], [], files)
    else
      var prev := FlushAll(ts[..|ts| - 1], files);
      var s := FlushStep(ts[|ts| - 1], prev.2);
      (prev.0 + [s.0], prev.1 + [s.1], s.2)
  }

  /** The entries whose flag is set, in order. */
  function Select<T>(es: seq<T>, keep: seq<bool>): (r: seq<T>)
    requires |keep| == |es|
    ensures |r| <= |es|
    decreases |es|
  {
    if es == [] then []
    else Select(es[..|es| - 1], keep[..|es| - 1]) + (if keep[|es| - 1] then [es[|es| - 1]] else [])
  }

  /** Every selected entry is one of the entries. */
  lemma {:induction false} SelectIn<T>(es: seq<T>, keep: seq<bool>)
    requires |keep| == |es|
    ensures forall i :: 0 <= i < |Select(es, keep)| ==> Select(es, keep)[i] in es
    decreases |es|
  {
    if es != [] {
      var n := |es| - 1;
      SelectIn(es[..n], keep[..n]);
      forall i | 0 <= i < |Select(es[..n], keep[..n])|
        ensures Select(es[..n], keep[..n])[i] in es
      {
        assert Select(es[..n], keep[..n])[i] in es[..n];
      }
    }
  }

  /**
   * After `stop()` every task is finalised: its raw file is gone or its target
   * exists, whatever the order of the tasks and whether or not their paths clash.
   */
  lemma {:induction false} ExportAllFinalizes(ts: seq<TaskState>, files: Files)
    ensures forall i :: 0 <= i < |ts| ==>
      RawPath(ts[i].pathName) !in ExportAll(ts, files).1 || TargetPath(ts[i].pathName) in ExportAll(ts, files).1
    decreases |ts|
  {
    if ts != [] {
      var n := |ts| - 1;
      var prev := ExportAll(ts[..n], files);
      var t := ts[n];
      var r := ExportAll(ts, files);
      assert r.1 == ExportStep(t, prev.1).1;
      ExportAllFinalizes(ts[..n], files);
      ExportFinalizes(t, prev.1);
      forall i | 0 <= i < n
        ensures RawPath(ts[i].pathName) !in r.1 || TargetPath(ts[i].pathName) in r.1
      {
        var p := ts[i].pathName;
        assert ts[..n][i] == ts[i];
        PathsDistinct(p, t.pathName);
        PathsDistinct(t.pathName, p);
      }
    }
  }

  /** After `flushSpeech`'s sweep no task has a raw file left: each was cleaned up, dropped or encoded. */
  lemma {:induction false} FlushAllRemovesRaw(ts: seq<TaskState>, files: Files)
    ensures forall i :: 0 <= i < |ts| ==> RawPath(ts[i].pathName) !in FlushAll(ts, files).2
    decreases |ts|
  {
    if ts != [] {
      var n := |ts| - 1;
      var prev := FlushAll(ts[..n], files);
      var t := ts[n];
      var r := FlushAll(ts, files);
      assert r.2 == FlushStep(t, prev.2).2;
      FlushAllRemovesRaw(ts[..n], files);
      forall i | 0 <= i < n
        ensures RawPath(ts[i].pathName) !in r.2
      {
        var p := ts[i].pathName;
        assert ts[..n][i] == ts[i];
        PathsDistinct(p, t.pathName);
      }
    }
  }

  /**
   * The raw file after `recordMic(buffer, _)`: with the stream open and the
   * file there, every sample is appended as two bytes, low byte first.
   */
  function MicWrite(t: TaskState, buffer: seq<Short>, files: Files): (r: Files)
  {
    var raw := RawPath(t.pathName);
    if !t.open || raw !in files || buffer == [] then files
    else files[raw := PcmData(Bytes(files[raw]) + PcmBytes(buffer))]
  }

  /** Two buffers recorded one after the other leave the same file as their concatenation recorded at once. */
  lemma MicWriteConcat(t: TaskState, b1: seq<Short>, b2: seq<Short>, files: Files)
    ensures MicWrite(t, b2, MicWrite(t, b1, files)) == MicWrite(t, b1 + b2, files)
  {
    PcmBytesAppend(b1, b2);
    var raw := RawPath(t.pathName);
    if t.open && raw in files {
      if b1 == [] {
        assert b1 + b2 == b2;
      } else if b2 == [] {
        assert b1 + b2 == b1;
      } else {
        var f1 := MicWrite(t, b1, files);
        assert Bytes(f1[raw]) + PcmBytes(b2) == Bytes(files[raw]) + PcmBytes(b1 + b2);
        assert f1[raw := PcmData(Bytes(f1[raw]) + PcmBytes(b2))] == files[raw := PcmData(Bytes(files[raw]) + PcmBytes(b1 + b2))];
      }
    }
  }

  /** A recording started on an empty raw file reads back, after its header-free decoding, as the samples recorded. */
  lemma MicWriteReadBack(t: TaskState, buffer: seq<Short>, files: Files)
    requires t.open && RawPath(t.pathName) in files && files[RawPath(t.pathName)] == PcmData([])
    ensures RawPath(t.pathName) in MicWrite(t, buffer, files)
    ensures DecodePcm(Bytes(MicWrite(t, buffer, files)[RawPath(t.pathName)])) == buffer
  {
    var raw := RawPath(t.pathName);
    if buffer != [] {
      var bytes := Bytes(MicWrite(t, buffer, files)[raw]);
      assert bytes == [] + PcmBytes(buffer);
      assert bytes == PcmBytes(buffer) + [];
      DecodeEncode(buffer, []);
    }
  }

  class RecordingTask {
    const pathName: string
    /** The prompt this recording belongs to. */
    const text: string
    /** `audioFos != null`: the raw file is open for appending. */
    var open: bool
    var transcripts: seq<string>

    function State(): TaskState
      reads `open, `transcripts
    {
      TaskState(pathName, text, open, transcripts)
    }

    predicate Valid()
      reads `transcripts
    {
      NoAdjacentDuplicates(transcripts)
    }

    /** A new task, its raw file open; the caller creates the file (see `Opened`). */
    constructor(pathName: string, text: string)
      ensures State() == TaskState(pathName, text, true, []) && Valid()
    {
      this.pathName := pathName;
      this.text := text;
      open := true;
      transcripts := [];
    }

    /** `stop()`: close the raw stream. */
    method Stop()
      modifies `open
      ensures !open
    {
      open := false;
    }

    method CleanUp(files: Files) returns (r: Files)
      modifies `open
      ensures (State(), r) == CleanUpStep(old(State()), files)
    {
      Stop();
      r := files - {RawPath(pathName)};
    }

    /** `isComplete()`: the AAC target exists. */
    predicate IsComplete(files: Files)
      reads this
    {
      TargetPath(pathName) in files
    }

    method Export(files: Files) returns (r: Files)
      modifies `open
      ensures (State(), r) == ExportStep(old(State()), files)
    {
      var raw, json, target := RawPath(pathName), TranscriptPath(pathName), TargetPath(pathName);
      if target in files {
        return files;
      }
      if raw !in files {
        return files;
      }
      Stop();
      var data := TranscriptJsonOf(text, transcripts);
      if IsBlank(data.ipa) {
        r := files - {raw};
      } else if Contains(raw, "prompt") || |Bytes(files[raw])| > 7000 {
        r := files[json := TranscriptData(data.text, data.ipa)];
        var job := EncoderRunnable(raw, target);
        r := job.Run(r);
      } else {
        r := files - {raw};
      }
    }

    /**
     * `recordMic(buffer, readSize)`: with the stream open, every sample of the
     * buffer (whatever `readSize` says) is appended to the raw file as two
     * bytes, low byte first.
     */
    method RecordMic(buffer: seq<Short>, readSize: int, files: Files) returns (r: Files)
      ensures r == MicWrite(State(), buffer, files)
    {
      var raw := RawPath(pathName);
      if !open || raw !in files {
        return files;
      }
      var bytes := Bytes(files[raw]);
      r := files;
      var i := 0;
      while i < |buffer|
        invariant 0 <= i <= |buffer|
        invariant bytes == Bytes(files[raw]) + PcmBytes(buffer[..i])
        invariant r == if i == 0 then files else files[raw := PcmData(bytes)]
      {
        assert buffer[..i + 1][..i] == buffer[..i];
        bytes := bytes + [LowByte(buffer[i]), HighByte(buffer[i])];
        r := r[raw := PcmData(bytes)];
        i := i + 1;
      }
      assert buffer[..i] == buffer;
    }

    /**
     * `recordTranscript(newTranscript)`: a blank string is ignored; one that
     * differs from the last entry is appended; one equal to it takes the
     * `contains` branch, which writes back the same value.  So no two adjacent
     * entries are ever equal.
     */
    method RecordTranscript(newTranscript: string)
      requires Valid()
      modifies `transcripts
      ensures Valid()
      ensures transcripts == Recorded(old(transcripts), newTranscript)
    {
      if IsBlank(newTranscript) {
        return;
      }
      if transcripts == [] || transcripts[|transcripts| - 1] != newTranscript {
        transcripts := transcripts + [newTranscript];
      } else if Contains(newTranscript, transcripts[|transcripts| - 1]) {
        transcripts := transcripts[|transcripts| - 1 := newTranscript];
      }
    }
  }

  /** The recording queue's replace branch only ever writes back the entry it replaces. */
  lemma ReplaceBranchIsIdentity(ts: seq<string>, s: string)
    requires ts != [] && ts[|ts| - 1] == s
    ensures Contains(s, ts[|ts| - 1]) && ts[|ts| - 1 := s] == ts
  {
    assert ts[|ts| - 1] <= s;
  }

  /** `tasks` (insertion-ordered, keyed by timestamp) as a list of entries. */
  type Entries = seq<(int, RecordingTask)>

  /** The key's entry, if any (the last one, should a key appear twice). */
  function IndexOf(es: Entries, k: int): (r: Option<nat>)
    ensures r.Some? ==> r.value < |es| && es[r.value].0 == k
    ensures r.Some? ==> forall j :: r.value < j < |es| ==> es[j].0 != k
    ensures r.None? <==> forall i :: 0 <= i < |es| ==> es[i].0 != k
    decreases |es|
  {
    if es == [] then None
    else if es[|es| - 1].0 == k then Some(|es| - 1)
    else IndexOf(es[..|es| - 1], k)
  }

  /** `tasks[k]`. */
  function Find(es: Entries, k: int): (r: Option<RecordingTask>)
    ensures r.Some? <==> exists i :: 0 <= i < |es| && es[i].0 == k
    ensures r.Some? ==> exists i :: 0 <= i < |es| && es[i] == (k, r.value)
  {
    var i := IndexOf(es, k);
    if i.Some? then Some(es[i.value].1) else None
  }

  /** `tasks[k] = t`: an existing entry keeps its place, a new key goes last. */
  function Put(es: Entries, k: int, t: RecordingTask): (r: Entries)
    ensures IndexOf(es, k).Some? ==> r == es[IndexOf(es, k).value := (k, t)]
    ensures IndexOf(es, k).None? ==> r == es + [(k, t)]
  {
    var i := IndexOf(es, k);
    if i.Some? then es[i.value := (k, t)] else es + [(k, t)]
  }

  /** `tasks.remove(k)`. */
  function RemoveKey(es: Entries, k: int): (r: Entries)
    ensures forall i :: 0 <= i < |r| ==> r[i].0 != k
    decreases |es|
  {
    if es == [] then []
    else RemoveKey(es[..|es| - 1], k) + (if es[|es| - 1].0 == k then [] else [es[|es| - 1]])
  }

  predicate DistinctEntries(es: Entries) {
    forall i, j :: 0 <= i < j < |es| ==> es[i].0 != es[j].0 && es[i].1 != es[j].1
  }

  function Tasks(es: Entries): set<RecordingTask> {
    set i | 0 <= i < |es| :: es[i].1
  }

  function States(es: Entries): (r: seq<TaskState>)
    reads Tasks(es)
    ensures |r| == |es| && forall i :: 0 <= i < |es| ==> r[i] == es[i].1.State()
  {
    seq(|es|, i requires 0 <= i < |es| reads Tasks(es) => es[i].1.State())
  }

  /** `export()` on every task of the list, in order. */
  method ExportTasks(es: Entries, files: Files) returns (r: Files)
    requires DistinctEntries(es)
    modifies Tasks(es)`open
    ensures var e := ExportAll(old(States(es)), files);
      r == e.1 && forall i :: 0 <= i < |es| ==> es[i].1.State() == e.0[i]
  {
    ghost var ts := States(es);
    r := files;
    ghost var done: seq<TaskState> := [];
    var i := 0;
    while i < |es|
      invariant 0 <= i <= |es|
      invariant (done, r) == ExportAll(ts[..i], files)
      invariant forall j :: 0 <= j < i ==> es[j].1.State() == done[j]
      invariant forall j :: i <= j < |es| ==> es[j].1.State() == ts[j]
    {
      ExportAllSnoc(ts, i, files);
      var t := es[i].1;
      ghost var e := ExportStep(t.State(), r);
      r := t.Export(r);
      done := done + [e.0];
      i := i + 1;
    }
    assert ts[..i] == ts;
  }

  /** The flushing sweep over one more task extends `FlushAll` by one step. */
  lemma FlushAllSnoc(ts: seq<TaskState>, i: nat, files: Files)
    requires i < |ts|
    ensures var prev := FlushAll(ts[..i], files);
      var s := FlushStep(ts[i], prev.2);
      FlushAll(ts[..i + 1], files) == (prev.0 + [s.0], prev.1 + [s.1], s.2)
  {
    assert ts[..i + 1][..i] == ts[..i];
  }

  lemma SelectSnoc<T>(es: seq<T>, keep: seq<bool>, b: bool, i: nat)
    requires i < |es| && |keep| == i
    ensures Select(es[..i + 1], keep + [b]) == Select(es[..i], keep) + (if b then [es[i]] else [])
  {
    assert es[..i + 1][..i] == es[..i];
    assert (keep + [b])[..i] == keep;
  }

  /** One step of the `flushSpeech` sweep on the table: a kept entry stays in place, a dropped one is removed by its key. */
  lemma SweepEntries(es: Entries, keep: seq<bool>, i: nat, b: bool)
    requires DistinctEntries(es) && |keep| == i < |es|
    ensures var live := Select(es[..i], keep) + es[i..];
      (if b then live else RemoveKey(live, es[i].0)) == Select(es[..i + 1], keep + [b]) + es[i + 1..]
  {
    SelectSnoc(es, keep, b, i);
    var a := Select(es[..i], keep);
    SelectIn(es[..i], keep);
    assert es[i..] == [es[i]] + es[i + 1..];
    if !b {
      forall j | 0 <= j < |a|
        ensures a[j].0 != es[i].0
      {
        assert a[j] in es[..i];
      }
      RemoveOnly(a, es[i], es[i + 1..]);
    }
  }

  /** Selecting entries keeps keys and tasks distinct. */
  lemma {:induction false} SelectDistinct(es: Entries, keep: seq<bool>)
    requires |keep| == |es| && DistinctEntries(es)
    ensures DistinctEntries(Select(es, keep))
    decreases |es|
  {
    if es != [] {
      var n := |es| - 1;
      var prev := Select(es[..n], keep[..n]);
      SelectIn(es[..n], keep[..n]);
      assert DistinctEntries(es[..n]);
      SelectDistinct(es[..n], keep[..n]);
      forall i | 0 <= i < |prev|
        ensures prev[i].0 != es[n].0 && prev[i].1 != es[n].1
      {
        assert prev[i] in es[..n];
      }
    }
  }

  lemma {:induction false} RemoveKeyAbsent(es: Entries, k: int)
    requires forall i :: 0 <= i < |es| ==> es[i].0 != k
    ensures RemoveKey(es, k) == es
    decreases |es|
  {
    if es != [] {
      RemoveKeyAbsent(es[..|es| - 1], k);
    }
  }

  lemma {:induction false} RemoveKeyAppend(a: Entries, b: Entries, k: int)
    ensures RemoveKey(a + b, k) == RemoveKey(a, k) + RemoveKey(b, k)
    decreases |b|
  {
    if b == [] {
      assert a + b == a;
    } else {
      var n := |b| - 1;
      assert (a + b)[..|a + b| - 1] == a + b[..n];
      RemoveKeyAppend(a, b[..n], k);
    }
  }

  /** Removing the key of an entry whose key occurs nowhere else drops exactly that entry. */
  lemma {:induction false} RemoveOnly(a: Entries, e: (int, RecordingTask), b: Entries)
    requires forall i :: 0 <= i < |a| ==> a[i].0 != e.0
    requires forall i :: 0 <= i < |b| ==> b[i].0 != e.0
    ensures RemoveKey(a + ([e] + b), e.0) == a + b
  {
    RemoveKeyAppend(a, [e] + b, e.0);
    RemoveKeyAppend([e], b, e.0);
    RemoveKeyAbsent(a, e.0);
    RemoveKeyAbsent(b, e.0);
    assert RemoveKey([e], e.0) == [];
  }

  /** The index of the last entry with a key is what `IndexOf` finds. */
  lemma {:induction false} IndexOfLast(es: Entries, k: int, i: nat)
    requires i < |es| && es[i].0 == k
    requires forall j :: i < j < |es| ==> es[j].0 != k
    ensures IndexOf(es, k) == Some(i)
    decreases |es|
  {
    if i < |es| - 1 {
      IndexOfLast(es[..|es| - 1], k, i);
    }
  }

  /** After `tasks[k] = t`, `tasks[k]` is `t`. */
  lemma {:induction false} FindPut(es: Entries, k: int, t: RecordingTask)
    ensures Find(Put(es, k, t), k) == Some(t)
  {
    var r := Put(es, k, t);
    match IndexOf(es, k)
    case Some(i) => IndexOfLast(r, k, i);
    case None => IndexOfLast(r, k, |es|);
  }

  /** A new task under any key keeps the entries distinct. */
  lemma {:induction false} PutDistinct(es: Entries, k: int, t: RecordingTask)
    requires DistinctEntries(es)
    requires forall i :: 0 <= i < |es| ==> es[i].1 != t
    ensures DistinctEntries(Put(es, k, t))
  {
  }

  /** One entry of the `flushSpeech` loop: a complete task is cleaned up (and is to be removed), any other exported. */
  method FlushTask(es: Entries, i: nat, task: RecordingTask, files: Files) returns (kept: bool, r: Files)
    requires DistinctEntries(es) && i < |es| && task == es[i].1
    modifies task`open
    ensures (kept, task.State(), r) == FlushStep(old(task.State()), files)
    ensures forall j :: 0 <= j < |es| && j != i ==> es[j].1.State() == old(es[j].1.State())
  {
    if task.IsComplete(files) {
      r := task.CleanUp(files);
      kept := false;
    } else {
      r := task.Export(files);
      kept := true;
    }
  }

  /** The table after the sweep's first `|keep|` entries: each dropped entry's key removed, in order. */
  function Remaining(es: Entries, keep: seq<bool>): (r: Entries)
    requires |keep| <= |es|
    decreases |keep|
  {
    if keep == [] then es
    else
      var n := |keep| - 1;
      var prev := Remaining(es, keep[..n]);
      if keep[n] then prev else RemoveKey(prev, es[n].0)
  }

  lemma RemainingSnoc(es: Entries, keep: seq<bool>, b: bool)
    requires |keep| < |es|
    ensures Remaining(es, keep + [b]) == if b then Remaining(es, keep) else RemoveKey(Remaining(es, keep), es[|keep|].0)
  {
    assert (keep + [b])[..|keep|] == keep;
  }

  /** With distinct keys, removing the dropped entries' keys one by one leaves the kept entries in order, then the unvisited ones. */
  lemma {:induction false} RemainingSelect(es: Entries, keep: seq<bool>)
    requires DistinctEntries(es) && |keep| <= |es|
    ensures Remaining(es, keep) == Select(es[..|keep|], keep) + es[|keep|..]
    decreases |keep|
  {
    if keep == [] {
      assert es[..0] == [];
    } else {
      var n := |keep| - 1;
      var prev := keep[..n];
      assert prev + [keep[n]] == keep;
      RemainingSelect(es, prev);
      RemainingSnoc(es, prev, keep[n]);
      SweepEntries(es, prev, n, keep[n]);
    }
  }

  /** The loop of `flushSpeech` over a copy of the table: complete tasks are cleaned up and removed, the others exported. */
  method SweepTasks(es: Entries, files: Files) returns (live: Entries, r: Files)
    requires DistinctEntries(es)
    modifies Tasks(es)`open
    ensures var f := FlushAll(old(States(es)), files);
      live == Select(es, f.0) && r == f.2 &&
      forall i :: 0 <= i < |es| ==> es[i].1.State() == f.1[i]
  {
    ghost var ts := States(es);
    ghost var keep: seq<bool> := [];
    ghost var done: seq<TaskState> := [];
    live := es;
    r := files;
    var i := 0;
    while i < |es|
      invariant 0 <= i <= |es|
      invariant (keep, done, r) == FlushAll(ts[..i], files)
      invariant live == Remaining(es, keep)
      invariant forall j :: 0 <= j < i ==> es[j].1.State() == done[j]
      invariant forall j :: i <= j < |es| ==> es[j].1.State() == ts[j]
    {
      FlushAllSnoc(ts, i, files);
      var id, task := es[i].0, es[i].1;
      ghost var s := FlushStep(task.State(), r);
      RemainingSnoc(es, keep, s.0);
      var kept;
      kept, r := FlushTask(es, i, task, r);
      live := if kept then live else RemoveKey(live, id);
      keep := keep + [s.0];
      done := done + [s.1];
      i := i + 1;
    }
    assert ts[..i] == ts;
    RemainingSelect(es, keep);
    assert es[..i] == es;
  }

  /**
   * The task table: insertion-ordered entries keyed by the timestamp of the
   * prompt they record, and the key of the task now being recorded.
   */
  class MicrophoneRecorder {
    const recordingId: string
    const saveDir: string
    var currentId: int
    var entries: Entries

    predicate Valid()
      reads this, Tasks(entries)
    {
      DistinctEntries(entries) && forall i :: 0 <= i < |entries| ==> entries[i].1.Valid()
    }

    function StatesOf(): seq<TaskState>
      reads this, Tasks(entries)
    {
      States(entries)
    }

    /** The task `tasks[currentId]`, as a frame. */
    function Current(): set<RecordingTask>
      reads this
    {
      var t := Find(entries, currentId);
      if t.Some? then {t.value} else {}
    }

    /** Where the task started at time `now` records: `<saveDir>/<recordingId>_<now>`. */
    function NewPath(now: nat): string {
      saveDir + "/" + recordingId + "_" + NatToString(now)
    }

    constructor(recordingId: string, saveDir: string)
      ensures Valid() && this.recordingId == recordingId && this.saveDir == saveDir
      ensures currentId == 0 && entries == []
    {
      this.recordingId := recordingId;
      this.saveDir := saveDir;
      currentId := 0;
      entries := [];
    }

    /** `currentPath()`: the current task's stem, or "" when there is none. */
    function CurrentPath(): (r: string)
      reads this
      ensures Find(entries, currentId).None? ==> r == ""
      ensures Find(entries, currentId).Some? ==> r == Find(entries, currentId).value.pathName
    {
      var t := Find(entries, currentId);
      if t.Some? then t.value.pathName else ""
    }

    /** `recordMicBuffer(buffer, readSize)`: to the current task's raw file, if there is a current task. */
    method RecordMicBuffer(buffer: seq<Short>, readSize: int, files: Files) returns (r: Files)
      ensures Find(entries, currentId).None? ==> r == files
      ensures Find(entries, currentId).Some? ==> r == MicWrite(Find(entries, currentId).value.State(), buffer, files)
    {
      var t := Find(entries, currentId);
      if t.None? {
        return files;
      }
      r := t.value.RecordMic(buffer, readSize, files);
    }

    /** `recordTranscript(transcript)`: into the current task's list, if there is a current task. */
    method RecordTranscript(transcript: string)
      requires Valid()
      modifies Current()
      ensures Valid()
      ensures Find(entries, currentId).Some? ==>
        Find(entries, currentId).value.transcripts == Recorded(old(Find(entries, currentId).value.transcripts), transcript)
    {
      var t := Find(entries, currentId);
      if t.None? {
        return;
      }
      t.value.RecordTranscript(transcript);
    }

    /** `stop()`: export every task in order, keep the table, and clear the current key. */
    method Stop(files: Files) returns (r: Files)
      requires Valid()
      modifies `currentId, Tasks(entries)`open
      ensures Valid()
      ensures currentId == 0
      ensures var e := ExportAll(old(StatesOf()), files);
        r == e.1 && StatesOf() == e.0
    {
      r := ExportTasks(entries, files);
      currentId := 0;
    }

    /** `release()`: as `stop()`, then the table is emptied. */
    method Release(files: Files) returns (r: Files)
      requires Valid()
      modifies this, Tasks(entries)`open
      ensures Valid()
      ensures currentId == 0 && entries == []
      ensures var e := ExportAll(old(StatesOf()), files);
        r == e.1 && forall i :: 0 <= i < |old(entries)| ==> old(entries)[i].1.State() == e.0[i]
    {
      r := ExportTasks(entries, files);
      entries := [];
      currentId := 0;
    }

    /**
     * `flushSpeech(newTranscript)` at time `now`: the sweep, then, unless the
     * new transcript is empty, a new task at `NewPath(now)` becomes current.
     */
    method FlushSpeech(newTranscript: string, now: nat, files: Files) returns (r: Files)
      requires Valid()
      modifies this, Tasks(entries)`open
      ensures Valid()
      ensures var f := FlushAll(old(StatesOf()), files);
        forall i :: 0 <= i < |old(entries)| ==> old(entries)[i].1.State() == f.1[i]
      ensures var f := FlushAll(old(StatesOf()), files);
        newTranscript == [] ==> entries == Select(old(entries), f.0) && currentId == old(currentId) && r == f.2
      ensures var f := FlushAll(old(StatesOf()), files);
        newTranscript != [] ==>
          currentId == now && Find(entries, now).Some? && fresh(Find(entries, now).value) &&
          entries == Put(Select(old(entries), f.0), now, Find(entries, now).value) &&
          Find(entries, now).value.State() == TaskState(NewPath(now), newTranscript, true, []) &&
          CurrentPath() == NewPath(now) &&
          r == Opened(f.2, RawPath(NewPath(now)))
    {
      r := Sweep(files);
      if newTranscript != [] {
        r := AddTask(newTranscript, now, r);
      }
    }

    /** The loop of `flushSpeech`: complete tasks are cleaned up and leave the table, the others are exported. */
    method Sweep(files: Files) returns (r: Files)
      requires Valid()
      modifies `entries, Tasks(entries)`open
      ensures Valid()
      ensures var f := FlushAll(old(StatesOf()), files);
        entries == Select(old(entries), f.0) && r == f.2 &&
        forall i :: 0 <= i < |old(entries)| ==> old(entries)[i].1.State() == f.1[i]
    {
      var live;
      live, r := SweepTasks(entries, files);
      ghost var keep := FlushAll(old(StatesOf()), files).0;
      SelectDistinct(entries, keep);
      SelectIn(entries, keep);
      entries := live;
    }

    /** The tail of `flushSpeech`: a new task at `NewPath(now)`, under key `now`, becomes current and opens its raw file. */
    method AddTask(newTranscript: string, now: nat, files: Files) returns (r: Files)
      requires Valid()
      modifies `currentId, `entries
      ensures Valid()
      ensures currentId == now && Find(entries, now).Some? && fresh(Find(entries, now).value)
      ensures entries == Put(old(entries), now, Find(entries, now).value)
      ensures Find(entries, now).value.State() == TaskState(NewPath(now), newTranscript, true, [])
      ensures CurrentPath() == NewPath(now)
      ensures r == Opened(files, RawPath(NewPath(now)))
    {
      currentId := now;
      var path := NewPath(now);
      var task := new RecordingTask(path, newTranscript);
      PutDistinct(entries, now, task);
      FindPut(entries, now, task);
      entries := Put(entries, now, task);
      r := Opened(files, RawPath(path));
    }
  }
}

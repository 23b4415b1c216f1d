/**
 * The two ways a run of samples is cut into pieces: the VAD window loop in
 * `recognize` (`for offset in indices step windowSize`) and the chunk loop in
 * `processAudio`: chunks of `AUDIO_BUFFER_SIZE` samples, the last one followed
 * by `speechSampleRate` zeros.
 */
module Chunking {

  function Min(a: int, b: int): int {
    if a <= b then a else b
  }

  /** `n` zero samples. */
  function Zeros(n: nat): (z: seq<int>)
    ensures |z| == n
    ensures forall i :: 0 <= i < n ==> z[i] == 0
  {
    seq(n, _ => 0)
  }

  /** The slices `s[offset..min(offset + size, |s|)]` taken for offset, offset + size, ... */
  function WindowsFrom<T>(s: seq<T>, size: nat, offset: nat): seq<seq<T>>
    requires size > 0
    decreases |s| - offset
  {
    if offset >= |s| then []
    else [s[offset..Min(offset + size, |s|)]] + WindowsFrom(s, size, Min(offset + size, |s|))
  }

  function Windows<T>(s: seq<T>, size: nat): seq<seq<T>>
    requires size > 0
  {
    WindowsFrom(s, size, 0)
  }

  function Flatten<T>(ss: seq<seq<T>>): seq<T>
    decreases |ss|
  {
    if ss == [] then [] else ss[0] + Flatten(ss[1..])
  }

  lemma {:induction false} WindowsFromFlatten<T>(s: seq<T>, size: nat, offset: nat)
    requires size > 0 && offset <= |s|
    ensures Flatten(WindowsFrom(s, size, offset)) == s[offset..]
    decreases |s| - offset
  {
    if offset < |s| {
      var end := Min(offset + size, |s|);
      var ws := WindowsFrom(s, size, offset);
      assert ws[1..] == WindowsFrom(s, size, end);
      WindowsFromFlatten(s, size, end);
      assert s[offset..] == s[offset..end] + s[end..];
    }
  }

  /** Every window but the last has exactly `size` samples; the last has between 1 and `size`. */
  lemma {:induction false} WindowsFromSizes<T>(s: seq<T>, size: nat, offset: nat)
    requires size > 0 && offset <= |s|
    ensures var ws := WindowsFrom(s, size, offset);
      (forall i :: 0 <= i < |ws| - 1 ==> |ws[i]| == size) &&
      (ws != [] ==> 0 < |ws[|ws| - 1]| <= size)
    decreases |s| - offset
  {
    if offset < |s| {
      var end := Min(offset + size, |s|);
      var ws := WindowsFrom(s, size, offset);
      assert ws[1..] == WindowsFrom(s, size, end);
      WindowsFromSizes(s, size, end);
    }
  }

  /** The VAD windows of a buffer concatenate back to it, and all but the last are full. */
  lemma WindowsPartition<T>(s: seq<T>, size: nat)
    requires size > 0
    ensures Flatten(Windows(s, size)) == s
    ensures forall i :: 0 <= i < |Windows(s, size)| - 1 ==> |Windows(s, size)[i]| == size
    ensures Windows(s, size) != [] ==> 0 < |Windows(s, size)[|Windows(s, size)| - 1]| <= size
  {
    WindowsFromFlatten(s, size, 0);
    WindowsFromSizes(s, size, 0);
  }

  /**
   * The buffers `processAudio` hands on from `offset`, each with its
   * `readSize`: consecutive slices of at most `size` samples, the last one
   * followed by `pad` zeros.
   */
  function ChunksFrom(s: seq<int>, size: nat, pad: nat, offset: nat): seq<(seq<int>, nat)>
    requires size > 0
    decreases |s| - offset
  {
    if offset >= |s| then []
    else
      var end := Min(offset + size, |s|);
      var piece := s[offset..end];
      var readSize: nat := |piece|;
      [(if end == |s| then piece + Zeros(pad) else piece, readSize)] + ChunksFrom(s, size, pad, end)
  }

  function PaddedChunks(s: seq<int>, size: nat, pad: nat): seq<(seq<int>, nat)>
    requires size > 0
  {
    ChunksFrom(s, size, pad, 0)
  }

  lemma {:induction false} ChunksFromShape(s: seq<int>, size: nat, pad: nat, offset: nat)
    requires size > 0 && offset <= |s|
    ensures var cs := ChunksFrom(s, size, pad, offset);
      var ws := WindowsFrom(s, size, offset);
      |cs| == |ws| &&
      (forall i :: 0 <= i < |cs| - 1 ==> cs[i].0 == ws[i] && cs[i].1 == |ws[i]|) &&
      (cs != [] ==> cs[|cs| - 1].0 == ws[|ws| - 1] + Zeros(pad) && cs[|cs| - 1].1 == |ws[|ws| - 1]|)
    decreases |s| - offset
  {
    if offset < |s| {
      var end := Min(offset + size, |s|);
      var cs := ChunksFrom(s, size, pad, offset);
      var ws := WindowsFrom(s, size, offset);
      assert cs[1..] == ChunksFrom(s, size, pad, end);
      assert ws[1..] == WindowsFrom(s, size, end);
      ChunksFromShape(s, size, pad, end);
      if end == |s| {
        assert ChunksFrom(s, size, pad, end) == [];
      } else {
        assert WindowsFrom(s, size, end) != [];
      }
    }
  }

  /**
   * Only the last `processAudio` chunk is padded; without the padding the
   * chunks are the windows of the recording, so they concatenate back to it;
   * every chunk but the last is full, and each `readSize` is the unpadded
   * length, between 1 and `size`.
   */
  lemma PaddedChunksShape(s: seq<int>, size: nat, pad: nat)
    requires size > 0
    ensures var cs := PaddedChunks(s, size, pad);
      var ws := Windows(s, size);
      |cs| == |ws| && Flatten(ws) == s &&
      (s == [] <==> cs == []) &&
      (forall i :: 0 <= i < |cs| - 1 ==> cs[i].0 == ws[i] && cs[i].1 == size) &&
      (cs != [] ==> cs[|cs| - 1].0 == ws[|ws| - 1] + Zeros(pad) && 0 < cs[|cs| - 1].1 <= size)
  {
    ChunksFromShape(s, size, pad, 0);
    WindowsPartition(s, size);
  }
}

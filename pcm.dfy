/**
 * Little-endian signed 16-bit PCM, the sample format both written by the
 * recorder into `.raw` files and read back from WAV files when a recording is
 * re-recognized.
 */
module Pcm {
  import opened Common

  /** Size of the canonical PCM WAV header that `readWavFile` skips. */
  const WavHeaderSize: nat := 44

  type Byte = b: int | 0 <= b < 256
  /** A Kotlin `Short` / Swift `Int16` sample. */
  type Short = s: int | -32768 <= s < 32768

  /** `s.toInt() and 0x00FF`: the low byte of the two's complement sample. */
  function LowByte(s: Short): (b: Byte)
    ensures (s - b) % 256 == 0
  {
    s % 256
  }

  /** `(s.toInt() and 0xFF00) shr 8`: the high byte of the two's complement sample. */
  function HighByte(s: Short): (b: Byte)
    ensures s < 0 <==> b >= 128
  {
    if s >= 0 then s / 256 else (s + 65536) / 256
  }

  /** A little-endian (low byte, high byte) pair read back as a signed sample. */
  function ToShort(lo: Byte, hi: Byte): (s: Short)
    ensures s % 65536 == lo + 256 * hi
    ensures s < 0 <==> hi >= 128
  {
    var v := lo + 256 * hi;
    if v >= 32768 then v - 65536 else v
  }

  lemma SampleRoundTrip(s: Short)
    ensures ToShort(LowByte(s), HighByte(s)) == s
  {
  }

  lemma BytesRoundTrip(lo: Byte, hi: Byte)
    ensures LowByte(ToShort(lo, hi)) == lo && HighByte(ToShort(lo, hi)) == hi
  {
  }

  /** The bytes written for a run of samples, two per sample, low byte first. */
  function PcmBytes(samples: seq<Short>): (r: seq<Byte>)
    ensures |r| == 2 * |samples|
    decreases |samples|
  {
    if samples == [] then []
    else PcmBytes(samples[..|samples| - 1]) + [LowByte(samples[|samples| - 1]), HighByte(samples[|samples| - 1])]
  }

  /** Byte `2i` of the encoding is the low byte of sample `i`, byte `2i + 1` its high byte. */
  lemma {:induction false} PcmBytesAt(samples: seq<Short>, i: nat)
    requires i < |samples|
    ensures PcmBytes(samples)[2 * i] == LowByte(samples[i])
    ensures PcmBytes(samples)[2 * i + 1] == HighByte(samples[i])
    decreases |samples|
  {
    var n := |samples| - 1;
    if i < n {
      PcmBytesAt(samples[..n], i);
    }
  }

  /** Encoding distributes over concatenation. */
  lemma {:induction false} PcmBytesAppend(a: seq<Short>, b: seq<Short>)
    ensures PcmBytes(a + b) == PcmBytes(a) + PcmBytes(b)
    decreases |b|
  {
    if b != [] {
      var n := |b| - 1;
      assert (a + b)[..|a + b| - 1] == a + b[..n];
      PcmBytesAppend(a, b[..n]);
    } else {
      assert a + b == a;
    }
  }

  /** The samples of a byte run: `size / 2` shorts, a trailing odd byte ignored. */
  function DecodePcm(bytes: seq<Byte>): (r: seq<Short>)
    ensures |r| == |bytes| / 2
  {
    seq(|bytes| / 2, i requires 0 <= i < |bytes| / 2 => ToShort(bytes[2 * i], bytes[2 * i + 1]))
  }

  /** Decoding undoes encoding, whatever odd byte is left over at the end. */
  lemma DecodeEncode(samples: seq<Short>, rest: seq<Byte>)
    requires |rest| <= 1
    ensures DecodePcm(PcmBytes(samples) + rest) == samples
  {
    var r := DecodePcm(PcmBytes(samples) + rest);
    forall i | 0 <= i < |samples|
      ensures r[i] == samples[i]
    {
      PcmBytesAt(samples, i);
      SampleRoundTrip(samples[i]);
    }
  }

  /** Encoding undoes decoding on an even number of bytes. */
  lemma EncodeDecode(bytes: seq<Byte>)
    requires |bytes| % 2 == 0
    ensures PcmBytes(DecodePcm(bytes)) == bytes
  {
    var s := DecodePcm(bytes);
    var r := PcmBytes(s);
    forall k | 0 <= k < |bytes|
      ensures r[k] == bytes[k]
    {
      var i := k / 2;
      PcmBytesAt(s, i);
      BytesRoundTrip(bytes[2 * i], bytes[2 * i + 1]);
    }
  }

  /** What `readWavFile` returns for the full contents of a stream. */
  function WavSamples(contents: seq<Byte>): (r: Option<seq<Short>>)
    ensures r.None? <==> |contents| < WavHeaderSize
  {
    if |contents| < WavHeaderSize then None else Some(DecodePcm(contents[WavHeaderSize..]))
  }

  /** A header followed by encoded samples reads back as exactly those samples. */
  lemma ReadBackRecording(header: seq<Byte>, samples: seq<Short>)
    requires |header| == WavHeaderSize
    ensures WavSamples(header + PcmBytes(samples)) == Some(samples)
  {
    assert (header + PcmBytes(samples))[WavHeaderSize..] == PcmBytes(samples) + [];
    DecodeEncode(samples, []);
  }

  /** `readWavFile`: skip the header, then read little-endian shorts one by one. */
  method ReadWavFile(contents: seq<Byte>) returns (r: Option<seq<Short>>)
    ensures r == WavSamples(contents)
  {
    if |contents| < WavHeaderSize {
      return None;
    }
    var audioData := contents[WavHeaderSize..];
    var numSamples := |audioData| / 2;
    var audioSamples := new Short[numSamples];
    var i := 0;
    while i < numSamples
      invariant 0 <= i <= numSamples
      invariant forall j :: 0 <= j < i ==> audioSamples[j] == ToShort(audioData[2 * j], audioData[2 * j + 1])
    {
      audioSamples[i] := ToShort(audioData[2 * i], audioData[2 * i + 1]);
      i := i + 1;
    }
    assert audioSamples[..] == DecodePcm(audioData);
    return Some(audioSamples[..]);
  }
}

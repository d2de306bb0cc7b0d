/** The byte and sample plumbing of the audio paths in
    services/geminiService.ts: the loops that copy a binary string into a
    byte array and back, the 16-bit little-endian view of a byte buffer,
    and the split of interleaved samples into channels. Samples are the
    integer PCM values; the scaling between them and floating-point audio is
    outside the model. */
module Pcm {
  import opened Wrappers
  import opened Base64

  type int16 = x: int | -32768 <= x < 32768

  /** `Uint8Array` element conversion: the value modulo 256. */
  function ToUint8(n: int): byte {
    n % 256
  }

  /** The bytes a `Uint8Array` holds after `bytes[i] = s.charCodeAt(i)`. */
  function ByteValues(s: string): (b: seq<byte>)
    ensures |b| == |s|
    ensures IsBinary(s) ==> b == Codes(s)
  {
    seq(|s|, i requires 0 <= i < |s| => ToUint8(s[i] as int))
  }

  /** The character-to-byte copy loop of `decodeBase64` and of the audio
      path of `onmessage`. */
  method BinaryToBytes(binary: string) returns (bytes: array<byte>)
    ensures fresh(bytes)
    ensures bytes[..] == ByteValues(binary)
  {
    bytes := new byte[|binary|];
    var i := 0;
    while i < |binary|
      invariant 0 <= i <= |binary|
      invariant forall k :: 0 <= k < i ==> bytes[k] == ToUint8(binary[k] as int)
    {
      bytes[i] := ToUint8(binary[i] as int);
      i := i + 1;
    }
  }

  /** The byte-to-character loop of the capture path:
      `binary += String.fromCharCode(uint8[i])`. */
  method BytesToBinary(bytes: array<byte>) returns (binary: string)
    ensures binary == Binary(bytes[..])
  {
    binary := "";
    var i := 0;
    while i < bytes.Length
      invariant 0 <= i <= bytes.Length
      invariant binary == Binary(bytes[..i])
    {
      assert Binary(bytes[..i + 1]) == Binary(bytes[..i]) + [bytes[i] as char];
      binary := binary + [bytes[i] as char];
      i := i + 1;
    }
    assert bytes[..bytes.Length] == bytes[..];
  }

  /** The two copy loops are inverse to each other and keep the length. */
  lemma CopyLoopsInverse(b: seq<byte>, s: string)
    requires IsBinary(s)
    ensures ByteValues(Binary(b)) == b
    ensures Binary(ByteValues(s)) == s
  {
    CodesBinary(b);
    BinaryCodes(s);
  }

  /** `decodeBase64(text)`: `None` when `atob` throws. */
  method DecodeBase64(text: string) returns (r: Option<seq<byte>>)
    ensures r.None? <==> Atob(text).None?
    ensures r.Some? ==> Binary(r.value) == Atob(text).value
  {
    var decoded := Atob(text);
    if decoded.None? {
      return None;
    }
    var bytes := BinaryToBytes(decoded.value);
    BinaryCodes(decoded.value);
    return Some(bytes[..]);
  }

  /** The signed value of a 16-bit pattern. */
  function AsInt16(u: int): int16
    requires 0 <= u < 65536
  {
    if u >= 32768 then u - 65536 else u
  }

  /** `Int16Array` element conversion: the value modulo 2^16, read as a
      signed number. */
  function WrapInt16(x: int): (r: int16)
    ensures (r - x) % 65536 == 0
    ensures -32768 <= x < 32768 ==> r == x
  {
    AsInt16(x % 65536)
  }

  /** `new Int16Array(bytes.buffer)`: pairs of bytes read little-endian; a
      buffer of odd length is refused with a `RangeError`. */
  function Int16View(bytes: seq<byte>): (r: Option<seq<int16>>)
    ensures r.None? <==> |bytes| % 2 == 1
    ensures r.Some? ==> |r.value| == |bytes| / 2
  {
    if |bytes| % 2 == 1 then None
    else Some(seq(|bytes| / 2, k requires 0 <= k < |bytes| / 2 => AsInt16(bytes[2 * k] as int + 256 * bytes[2 * k + 1] as int)))
  }

  /** The low and high byte of a sample's 16-bit pattern. */
  function LowByte(x: int16): byte { (x as int % 65536) % 256 }
  function HighByte(x: int16): byte { (x as int % 65536) / 256 }

  lemma SampleBytes(x: int16)
    ensures AsInt16(LowByte(x) + 256 * HighByte(x)) == x
  {
  }

  /** The bytes of `new Uint8Array(pcm16.buffer)`: each sample as two bytes,
      least significant first. */
  function Int16Bytes(samples: seq<int16>): (b: seq<byte>)
    ensures |b| == 2 * |samples|
    ensures forall j :: 0 <= j < |b| ==> b[j] == if j % 2 == 0 then LowByte(samples[j / 2]) else HighByte(samples[j / 2])
  {
    seq(2 * |samples|, j requires 0 <= j < 2 * |samples| =>
      if j % 2 == 0 then LowByte(samples[j / 2]) else HighByte(samples[j / 2]))
  }

  /** Viewing the bytes of samples as 16-bit values gives the samples back. */
  lemma Int16ViewOfBytes(samples: seq<int16>)
    ensures Int16View(Int16Bytes(samples)) == Some(samples)
  {
    var b := Int16Bytes(samples);
    var v := Int16View(b).value;
    forall k | 0 <= k < |samples| ensures v[k] == samples[k] {
      assert (2 * k) / 2 == k && (2 * k + 1) / 2 == k && (2 * k) % 2 == 0 && (2 * k + 1) % 2 == 1;
      assert b[2 * k] == LowByte(samples[k]);
      assert b[2 * k + 1] == HighByte(samples[k]);
      SampleBytes(samples[k]);
    }
    assert v == samples;
  }

  function WrapAll(xs: seq<int>): (r: seq<int16>)
    ensures |r| == |xs| && forall i :: 0 <= i < |xs| ==> r[i] == WrapInt16(xs[i])
  {
    seq(|xs|, i requires 0 <= i < |xs| => WrapInt16(xs[i]))
  }

  /** The capture path of `onaudioprocess`: each sample stored into an
      `Int16Array`, its buffer viewed as bytes, copied into a binary string
      and encoded with `btoa`. */
  method EncodeCapture(samples: seq<int>) returns (b64: string)
    ensures b64 == Encode(Int16Bytes(WrapAll(samples)))
  {
    var pcm16 := new int16[|samples|];
    var i := 0;
    while i < |samples|
      invariant 0 <= i <= |samples|
      invariant forall k :: 0 <= k < i ==> pcm16[k] == WrapInt16(samples[k])
    {
      pcm16[i] := WrapInt16(samples[i]);
      i := i + 1;
    }
    assert pcm16[..] == WrapAll(samples);
    var view := Int16Bytes(pcm16[..]);
    var uint8 := new byte[|view|](j requires 0 <= j < |view| => view[j]);
    assert uint8[..] == view;
    var binary := BytesToBinary(uint8);
    CodesBinary(view);
    b64 := Btoa(binary).value;
  }

  /** The samples the audio path of `onmessage` plays for the text of an
      inline audio part: `None` when `atob` throws or the byte count is odd. */
  function PlaybackSamples(audioData: string): (r: Option<seq<int16>>)
    ensures r.Some? <==> Atob(audioData).Some? && |Atob(audioData).value| % 2 == 0
    ensures r.Some? ==> 2 * |r.value| == |Atob(audioData).value|
  {
    match Atob(audioData)
    case None => None
    case Some(binary) => Int16View(ByteValues(binary))
  }

  /** The decoding half of the audio path of `onmessage`: `atob`, the byte
      loop and the `Int16Array` view. */
  method DecodePlayback(audioData: string) returns (samples: Option<seq<int16>>)
    ensures samples == PlaybackSamples(audioData)
  {
    var decoded := Atob(audioData);
    if decoded.None? {
      return None;
    }
    var bytes := BinaryToBytes(decoded.value);
    samples := Int16View(bytes[..]);
  }

  /** What the capture path sends, decoded by the playback path, is the
      captured samples as 16-bit values. */
  lemma CaptureThenPlayback(xs: seq<int>)
    ensures PlaybackSamples(Encode(Int16Bytes(WrapAll(xs)))) == Some(WrapAll(xs))
  {
    var b := Int16Bytes(WrapAll(xs));
    DecodeEncode(b);
    CodesBinary(b);
    Int16ViewOfBytes(WrapAll(xs));
  }

  lemma InterleavedIndexInBounds(i: nat, ch: nat, numChannels: nat, frames: nat)
    requires i < frames && ch < numChannels
    ensures i * numChannels + ch < frames * numChannels
  {
    assert (i + 1) * numChannels <= frames * numChannels by {
      assert frames * numChannels == (i + 1) * numChannels + (frames - i - 1) * numChannels;
    }
  }

  lemma FrameOfIndex(k: nat, n: nat, frames: nat)
    requires n >= 1 && k < frames * n
    ensures k / n < frames && k == (k / n) * n + k % n
  {
    var q := k / n;
    assert q * n <= k;
    assert (frames - q) * n > 0;
  }

  lemma ChannelIndicesInBounds(len: nat, numChannels: nat, ch: nat)
    requires numChannels >= 1 && ch < numChannels
    ensures forall i :: 0 <= i < len / numChannels ==> i * numChannels + ch < len
  {
    var frames := len / numChannels;
    assert frames * numChannels <= len;
    forall i | 0 <= i < frames ensures i * numChannels + ch < len {
      InterleavedIndexInBounds(i, ch, numChannels, frames);
    }
  }

  lemma NoWholeFrame(len: nat, n: nat)
    requires n >= 1
    ensures len / n == 0 <==> len < n
  {
    var q, r := len / n, len % n;
    assert len == q * n + r && 0 <= r < n;
    if q == 0 {
      assert len == r;
    } else {
      assert (q - 1) * n >= 0;
      assert q * n == n + (q - 1) * n;
    }
  }

  /** Channel `ch` of interleaved samples: frame `i` is at index
      `i * numChannels + ch`. */
  function Channel(samples: seq<int16>, numChannels: nat, ch: nat): (c: seq<int16>)
    requires numChannels >= 1 && ch < numChannels
    ensures |c| == |samples| / numChannels
    ensures forall i :: 0 <= i < |c| ==> i * numChannels + ch < |samples| && c[i] == samples[i * numChannels + ch]
  {
    ChannelIndicesInBounds(|samples|, numChannels, ch);
    seq(|samples| / numChannels, i requires 0 <= i < |samples| / numChannels => samples[i * numChannels + ch])
  }

  /** All the channels of interleaved samples. */
  function Deinterleave(samples: seq<int16>, numChannels: nat): (channels: seq<seq<int16>>)
    requires numChannels >= 1
    ensures |channels| == numChannels
    ensures forall ch :: 0 <= ch < numChannels ==> channels[ch] == Channel(samples, numChannels, ch)
  {
    seq(numChannels, ch requires 0 <= ch < numChannels => Channel(samples, numChannels, ch))
  }

  /** Interleaving channels again: position `k` holds frame `k / n` of
      channel `k % n`. */
  function Interleave(channels: seq<seq<int16>>, frames: nat): (s: seq<int16>)
    requires |channels| >= 1 && forall ch :: 0 <= ch < |channels| ==> |channels[ch]| == frames
    ensures |s| == frames * |channels|
  {
    var n := |channels|;
    seq(frames * n, k requires 0 <= k < frames * n =>
      FrameOfIndex(k, n, frames);
      channels[k % n][k / n])
  }

  /** Splitting into channels loses only the samples of an incomplete last
      frame: interleaving the channels again gives the whole frames back. */
  lemma InterleaveDeinterleave(samples: seq<int16>, numChannels: nat)
    requires numChannels >= 1
    ensures Interleave(Deinterleave(samples, numChannels), |samples| / numChannels)
      == samples[..(|samples| / numChannels) * numChannels]
  {
    var n := numChannels;
    var frames := |samples| / n;
    var chs := Deinterleave(samples, n);
    var r := Interleave(chs, frames);
    assert frames * n <= |samples|;
    forall k | 0 <= k < frames * n ensures r[k] == samples[k] {
      FrameOfIndex(k, n, frames);
      var c := Channel(samples, n, k % n);
      assert r[k] == c[k / n];
    }
  }

  /** The inner loop of `decodeAudioData` for one channel. */
  method FillChannel(dataInt16: seq<int16>, numChannels: nat, channel: nat) returns (channelData: array<int16>)
    requires numChannels >= 1 && channel < numChannels
    ensures fresh(channelData)
    ensures channelData[..] == Channel(dataInt16, numChannels, channel)
  {
    var frameCount := |dataInt16| / numChannels;
    ghost var c := Channel(dataInt16, numChannels, channel);
    channelData := new int16[frameCount];
    var i := 0;
    while i < frameCount
      invariant 0 <= i <= frameCount
      invariant forall k :: 0 <= k < i ==> channelData[k] == c[k]
    {
      channelData[i] := dataInt16[i * numChannels + channel];
      i := i + 1;
    }
  }

  /** The loops of `decodeAudioData`: the `Int16Array` view of the data,
      then for every channel and frame `channelData[i] = dataInt16[i *
      numChannels + channel]`. `None` when the view throws on an odd byte
      count or when there is not one whole frame, for which the audio
      context cannot create a buffer. */
  method DecodeAudioData(data: seq<byte>, numChannels: nat) returns (r: Option<seq<seq<int16>>>)
    requires numChannels >= 1
    ensures r.None? <==> |data| % 2 == 1 || |data| / 2 < numChannels
    ensures r.Some? ==> r.value == Deinterleave(Int16View(data).value, numChannels)
  {
    var view := Int16View(data);
    if view.None? {
      return None;
    }
    var dataInt16 := view.value;
    var frameCount := |dataInt16| / numChannels;
    NoWholeFrame(|dataInt16|, numChannels);
    if frameCount == 0 {
      return None;
    }
    var channels: seq<seq<int16>> := [];
    var channel := 0;
    while channel < numChannels
      invariant 0 <= channel <= numChannels
      invariant |channels| == channel
      invariant forall ch :: 0 <= ch < channel ==> channels[ch] == Channel(dataInt16, numChannels, ch)
    {
      var channelData := FillChannel(dataInt16, numChannels, channel);
      channels := channels + [channelData[..]];
      channel := channel + 1;
    }
    assert channels == Deinterleave(dataInt16, numChannels);
    return Some(channels);
  }
}
